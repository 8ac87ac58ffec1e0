/** Planning a refresh-rate change: when to refresh so that the new vsync period applies at a vsync
    edge, and how the plan moves when it is submitted late.  Times are nanoseconds of the monotonic
    clock; `p` is the vsync period and `k` the number of vsyncs the panel needs to switch. */
module VsyncTimeline {

  const INT64_LIMIT := 0x8000_0000_0000_0000
  const UINT32_LIMIT := 0x1_0000_0000
  /** INT64_MAX, which stands for "no time set". */
  const NEVER := 0x7FFF_FFFF_FFFF_FFFF

  datatype Timeline = Timeline(refresh: int, applied: int)

  /** C++ `%`, whose result has the sign of the dividend. */
  function TruncRem(a: int, b: int): (r: int)
    requires b > 0
    ensures -b < r < b
    ensures a >= 0 ==> r >= 0
    ensures a <= 0 ==> r <= 0
    ensures (a - r) % b == 0
  {
    if a >= 0 then
      ModOfMultiple(a / b, b);
      assert a - a % b == (a / b) * b;
      a % b
    else
      ModOfMultiple(-(-a / b), b);
      assert a + (-a) % b == -(-a / b) * b;
      -((-a) % b)
  }

  /** The uint32 product of the vsync count and the period. */
  function ActivatePeriod(p: nat, k: nat): nat {
    (p * k) % UINT32_LIMIT
  }

  predicate Fits(p: nat, k: nat) {
    p > 0 && p * k < UINT32_LIMIT
  }

  function Estimate(p: nat, k: nat, now: int, desired: int): Timeline
    requires p > 0
  {
    var delta := desired - now;
    var activate := ActivatePeriod(p, k);
    var refresh :=
      if delta < 0 then now + TruncRem(delta, p)
      else if delta < activate then now + TruncRem(delta, p) - p
      else desired - activate;
    Timeline(refresh, refresh + activate)
  }

  predicate TimeReached(time: int, vsyncTime: int) {
    vsyncTime != NEVER && time - vsyncTime >= 0
  }

  // ------------------------------------------------ modular facts

  lemma ModOfMultiple(q: int, b: int)
    requires b > 0
    ensures (q * b) % b == 0
  {
    var d, r := (q * b) / b, (q * b) % b;
    assert (q - d) * b == r;
    Between(q - d, b);
  }

  /** The only multiple of `b` in [0, b) is 0. */
  lemma Between(q: int, b: int)
    ensures b > 0 && -b < q * b < b ==> q == 0
  {
    if q >= 1 && b > 0 {
      assert q * b >= b;
    } else if q <= -1 && b > 0 {
      assert q * b <= -b;
    }
  }

  ghost predicate Congruent(a: int, b: int, p: int)
    requires p > 0
  {
    (a - b) % p == 0
  }

  lemma CongruentIff(a: int, b: int, p: int)
    requires p > 0
    ensures Congruent(a, b, p) <==> exists q :: a == b + q * p
  {
    if Congruent(a, b, p) {
      assert a == b + ((a - b) / p) * p;
    }
    if q :| a == b + q * p {
      ModOfMultiple(q, p);
    }
  }

  lemma CongruentChain(a: int, b: int, c: int, p: int)
    requires p > 0 && Congruent(a, b, p) && Congruent(b, c, p)
    ensures Congruent(a, c, p)
  {
    CongruentIff(a, b, p);
    CongruentIff(b, c, p);
    var q :| a == b + q * p;
    var r :| b == c + r * p;
    assert a == c + (q + r) * p;
    CongruentIff(a, c, p);
  }

  lemma CongruentBack(a: int, b: int, p: int)
    requires p > 0 && Congruent(a, b, p)
    ensures Congruent(b, a, p)
  {
    CongruentIff(a, b, p);
    var q :| a == b + q * p;
    assert b == a + (-q) * p;
    CongruentIff(b, a, p);
  }

  lemma Shift(a: int, q: int, p: int)
    requires p > 0
    ensures Congruent(a + q * p, a, p)
  {
    ModOfMultiple(q, p);
  }

  /** Two congruent numbers closer than `p` are equal. */
  lemma CloseCongruent(a: int, b: int, p: int)
    requires p > 0 && Congruent(a, b, p) && -p < a - b < p
    ensures a == b
  {
    CongruentIff(a, b, p);
    var q :| a == b + q * p;
    Between(q, p);
  }

  // ------------------------------------------------ one estimate

  /** The product stays below 2^32 exactly when the change takes k whole periods. */
  lemma TakesKPeriodsIffFits(p: nat, k: nat, now: int, desired: int)
    requires p > 0
    ensures var e := Estimate(p, k, now, desired);
      e.applied - e.refresh == k * p <==> Fits(p, k)
  {
  }

  /** The earliest instant at which the change may apply. */
  function EarliestApply(p: nat, k: nat, now: int, desired: int): int {
    if desired < now then now + (k - 1) * p + 1 else now + (k - 1) * p
  }

  /** The applied time is a vsync edge of the desired time's grid, no earlier than asked for, and all
      the ways the three branches place it around `now`. */
  lemma EstimatePlacement(p: nat, k: nat, now: int, desired: int)
    requires Fits(p, k)
    ensures var e := Estimate(p, k, now, desired);
      && e.applied - e.refresh == k * p
      && Congruent(e.applied, desired, p)
      && e.applied >= desired
      && e.applied >= EarliestApply(p, k, now, desired)
      && (desired >= now + k * p ==> e.applied == desired && e.refresh >= now)
      && (desired < now + k * p ==> e.applied <= now + k * p && e.refresh <= now)
  {
    var e := Estimate(p, k, now, desired);
    var delta := desired - now;
    var r := TruncRem(delta, p);
    assert k * p == p * k == ActivatePeriod(p, k);
    assert (k - 1) * p == k * p - p;
    assert Congruent(delta, r, p);
    CongruentBack(delta, r, p);
    if delta < 0 {
      assert e.applied == (now + r) + k * p;
      Shift(now + r, k, p);
      assert Congruent(now + r, desired, p);
      CongruentChain(e.applied, now + r, desired, p);
      TruncBelow(delta, p);
    } else if delta < k * p {
      assert e.applied == (now + r) + (k - 1) * p;
      Shift(now + r, k - 1, p);
      assert Congruent(now + r, desired, p);
      CongruentChain(e.applied, now + r, desired, p);
      TruncWithin(delta, k, p);
    } else {
      Shift(desired, 0, p);
    }
  }

  lemma TruncBelow(delta: int, p: int)
    requires p > 0 && delta < 0
    ensures delta <= TruncRem(delta, p)
  {
    var q := (-delta) / p;
    assert q * p >= 0;
  }

  lemma MoreMultiples(q: int, k: int, p: int)
    requires q <= k && p > 0
    ensures q * p <= k * p
  {
  }

  lemma FewerMultiples(q: int, k: int, p: int)
    requires q * p < k * p && p > 0
    ensures q < k
  {
    if k <= q {
      MoreMultiples(k, q, p);
    }
  }

  lemma TruncWithin(delta: int, k: nat, p: int)
    requires p > 0 && 0 <= delta < k * p
    ensures delta <= TruncRem(delta, p) + (k - 1) * p
  {
    var q := delta / p;
    assert delta == q * p + delta % p;
    FewerMultiples(q, k, p);
    MoreMultiples(q, k - 1, p);
  }

  /** Of all vsync edges of the desired grid that respect both bounds, the estimate is the first. */
  lemma EstimateIsFirstEdge(p: nat, k: nat, now: int, desired: int, t: int)
    requires Fits(p, k)
    requires Congruent(t, desired, p) && t >= desired && t >= EarliestApply(p, k, now, desired)
    ensures Estimate(p, k, now, desired).applied <= t
  {
    var e := Estimate(p, k, now, desired);
    EstimatePlacement(p, k, now, desired);
    if t < e.applied {
      CongruentBack(t, desired, p);
      CongruentChain(e.applied, desired, t, p);
      assert (k - 1) * p == k * p - p;
      assert k * p == p * k == ActivatePeriod(p, k);
      assert e.applied < t + p;
      CloseCongruent(e.applied, t, p);
      assert false;
    }
  }

  /** No int64 operation of the estimate overflows for times in the inner half of the range. */
  lemma EstimateStaysInInt64(p: nat, k: nat, now: int, desired: int)
    requires 0 < p < UINT32_LIMIT && k < UINT32_LIMIT
    requires 0 <= now < INT64_LIMIT / 4 && -(INT64_LIMIT / 4) <= desired < INT64_LIMIT / 4
    ensures var e := Estimate(p, k, now, desired);
      && -INT64_LIMIT <= desired - now < INT64_LIMIT
      && -INT64_LIMIT <= e.refresh < INT64_LIMIT && -INT64_LIMIT <= e.applied < NEVER
  {
  }

  // ------------------------------------------------ planned, then submitted

  /** A plan made at any time and submitted `late` > 0 ns after its refresh time, with the period then
      in force: the applied time moves by the whole periods missed plus the change of period. */
  lemma LateSubmitMoves(p: nat, p': nat, k: nat, now: int, desired: int, late: int)
    requires Fits(p, k) && Fits(p', k) && late > 0
    ensures var plan := Estimate(p, k, now, desired);
      var again := Estimate(p', k, plan.refresh + late, plan.refresh);
      again.applied - plan.applied == p' * (late / p') + k * (p' - p)
  {
    var plan := Estimate(p, k, now, desired);
    var again := Estimate(p', k, plan.refresh + late, plan.refresh);
    assert again.refresh == plan.refresh + late - late % p';
    assert late == p' * (late / p') + late % p';
    assert ActivatePeriod(p', k) == p' * k == k * p';
    assert ActivatePeriod(p, k) == p * k == k * p;
    assert k * (p' - p) == k * p' - k * p;
  }

  /** Submitted exactly at its refresh time, the change is planned one period earlier than promised. */
  lemma PunctualSubmitMovesBack(p: nat, k: nat, now: int, desired: int)
    requires Fits(p, k) && k > 0
    ensures var plan := Estimate(p, k, now, desired);
      Estimate(p, k, plan.refresh, plan.refresh).applied == plan.applied - p
  {
    assert p * k >= p;
  }

  /** With the period unchanged, a submitted plan keeps the promised applied time exactly when it is
      late by less than one whole period but not punctual to the nanosecond. */
  lemma PromiseKeptIff(p: nat, k: nat, now: int, desired: int, late: nat)
    requires Fits(p, k) && k > 0
    ensures var plan := Estimate(p, k, now, desired);
      Estimate(p, k, plan.refresh + late, plan.refresh).applied == plan.applied <==> 0 < late < p
  {
    if late == 0 {
      PunctualSubmitMovesBack(p, k, now, desired);
    } else {
      LateSubmitMoves(p, p, k, now, desired, late);
      assert k * (p - p) == 0;
      if late >= p {
        assert late / p >= 1;
        assert p * (late / p) >= p;
      } else {
        assert late / p == 0;
      }
    }
  }
}
