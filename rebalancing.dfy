/**
 * Quarterly contribution rebalancing, the block inside the monthly loop of
 * `run_investment_simulation`. It only changes the mix that splits future
 * contributions; existing balances are never moved.
 */
module Rebalancing {
  import opened Portfolio

  function Abs(x: real): real
  {
    if x < 0.0 then -x else x
  }

  function PosPart(x: real): real
  {
    if x > 0.0 then x else 0.0
  }

  /** Each asset's fraction of the four-asset total. */
  function CurrentAllocation(b: Balances): (alloc: Mix)
    requires FourAssetTotal(b) > 0.0
    ensures MixSum(alloc) == 1.0
  {
    var total := FourAssetTotal(b);
    assert b.sp500 / total + b.nasdaq / total + b.tbill / total + b.hysa / total
        == (b.sp500 + b.nasdaq + b.tbill + b.hysa) / total == total / total == 1.0;
    Mix(b.sp500 / total, b.nasdaq / total, b.tbill / total, b.hysa / total)
  }

  /** Some asset is strictly more than `threshold` away from its target share. */
  predicate NeedsRebalancing(alloc: Mix, target: Mix, threshold: real)
  {
    || Abs(alloc.sp500 - target.sp500) > threshold
    || Abs(alloc.nasdaq - target.nasdaq) > threshold
    || Abs(alloc.tbill - target.tbill) > threshold
    || Abs(alloc.hysa - target.hysa) > threshold
  }

  /** Sum of the positive adjustments -(alloc - target), i.e. of the under-weights. */
  function TotalAdjustment(alloc: Mix, target: Mix): real
  {
    PosPart(-(alloc.sp500 - target.sp500)) + PosPart(-(alloc.nasdaq - target.nasdaq))
    + PosPart(-(alloc.tbill - target.tbill)) + PosPart(-(alloc.hysa - target.hysa))
  }

  /** Half-step mix before renormalisation: target + 0.5 * adjustment / total, for every asset alike. */
  function HalfStep(alloc: Mix, target: Mix, total: real): Mix
    requires total > 0.0
  {
    Mix(target.sp500 + (-(alloc.sp500 - target.sp500) / total) * 0.5,
        target.nasdaq + (-(alloc.nasdaq - target.nasdaq) / total) * 0.5,
        target.tbill + (-(alloc.tbill - target.tbill) / total) * 0.5,
        target.hysa + (-(alloc.hysa - target.hysa) / total) * 0.5)
  }

  /** Every entry divided by the entry sum. */
  function Normalized(m: Mix): (n: Mix)
    requires MixSum(m) > 0.0
    ensures MixSum(n) == 1.0
  {
    var s := MixSum(m);
    assert m.sp500 / s + m.nasdaq / s + m.tbill / s + m.hysa / s == MixSum(m) / s == s / s == 1.0;
    Mix(m.sp500 / s, m.nasdaq / s, m.tbill / s, m.hysa / s)
  }

  /** The four-asset total is positive, some drift exceeds the threshold, and some asset is under target. */
  predicate Fires(b: Balances, target: Mix, threshold: real)
  {
    && FourAssetTotal(b) > 0.0
    && NeedsRebalancing(CurrentAllocation(b), target, threshold)
    && TotalAdjustment(CurrentAllocation(b), target) > 0.0
  }

  /**
   * The mix after a quarterly check: the half-step mix, renormalised when its sum is
   * positive, if the check fires; otherwise `current`, which may itself be an earlier
   * rebalanced mix (it does not return to the target).
   */
  function Rebalance(current: Mix, b: Balances, target: Mix, threshold: real): (next: Mix)
    ensures !Fires(b, target, threshold) ==> next == current
    ensures Fires(b, target, threshold) && MixSum(target) == 1.0 ==> MixSum(next) == 1.0
  {
    if FourAssetTotal(b) > 0.0 then
      var alloc := CurrentAllocation(b);
      if NeedsRebalancing(alloc, target, threshold) then
        var total := TotalAdjustment(alloc, target);
        if total > 0.0 then
          var raw := HalfStep(alloc, target, total);
          HalfStepSum(alloc, target, total);
          if MixSum(raw) > 0.0 then Normalized(raw) else raw
        else current
      else current
    else current
  }

  /** The half-step mix sums to the target sum plus half the (normalised) total drift. */
  lemma HalfStepSum(alloc: Mix, target: Mix, total: real)
    requires total > 0.0
    ensures MixSum(HalfStep(alloc, target, total))
         == MixSum(target) + ((MixSum(target) - MixSum(alloc)) / total) * 0.5
  {
    var d1, d2, d3, d4 := -(alloc.sp500 - target.sp500), -(alloc.nasdaq - target.nasdaq),
                          -(alloc.tbill - target.tbill), -(alloc.hysa - target.hysa);
    assert d1 / total + d2 / total + d3 / total + d4 / total == (d1 + d2 + d3 + d4) / total;
  }

  /** With threshold 0 the check fires on any difference from the target, and only then. */
  lemma ThresholdZeroDetectsAnyDrift(alloc: Mix, target: Mix)
    ensures NeedsRebalancing(alloc, target, 0.0) <==> alloc != target
  {
    if alloc != target {
      assert alloc.sp500 != target.sp500 || alloc.nasdaq != target.nasdaq
          || alloc.tbill != target.tbill || alloc.hysa != target.hysa;
    }
  }

  /**
   * When the target sums to 1 like the allocation does, any drift leaves some asset
   * under target, so the `total_adjustment > 0` guard never blocks a firing check.
   */
  lemma DriftHasUnderweight(alloc: Mix, target: Mix, threshold: real)
    requires MixSum(alloc) == MixSum(target)
    requires threshold >= 0.0 && NeedsRebalancing(alloc, target, threshold)
    ensures TotalAdjustment(alloc, target) > 0.0
  {
  }

  /** The half-step share is above target exactly for an under-weight asset, below exactly for an over-weight one. */
  lemma HalfStepDirection(alloc: Mix, target: Mix, total: real, a: Asset)
    requires total > 0.0
    ensures HalfStep(alloc, target, total).Get(a) > target.Get(a) <==> alloc.Get(a) < target.Get(a)
    ensures HalfStep(alloc, target, total).Get(a) < target.Get(a) <==> alloc.Get(a) > target.Get(a)
  {
    var d := -(alloc.Get(a) - target.Get(a));
    assert HalfStep(alloc, target, total).Get(a) == target.Get(a) + (d / total) * 0.5;
    assert d > 0.0 <==> d / total > 0.0;
    assert d < 0.0 <==> d / total < 0.0;
  }

  /** For a target summing to 1 the renormalisation divides by 1: a firing check yields the half-step mix itself. */
  lemma RebalanceIsHalfStep(current: Mix, b: Balances, target: Mix, threshold: real)
    requires Fires(b, target, threshold) && MixSum(target) == 1.0
    ensures Rebalance(current, b, target, threshold)
         == HalfStep(CurrentAllocation(b), target, TotalAdjustment(CurrentAllocation(b), target))
  {
    var alloc := CurrentAllocation(b);
    var raw := HalfStep(alloc, target, TotalAdjustment(alloc, target));
    HalfStepSum(alloc, target, TotalAdjustment(alloc, target));
    assert MixSum(raw) == 1.0;
    assert Normalized(raw) == Mix(raw.sp500 / 1.0, raw.nasdaq / 1.0, raw.tbill / 1.0, raw.hysa / 1.0);
  }

  /**
   * For a target summing to 1, a firing check moves each asset's share above its
   * target exactly when the asset is under-weight, and below exactly when over-weight.
   */
  lemma RebalanceDirection(current: Mix, b: Balances, target: Mix, threshold: real, a: Asset)
    requires Fires(b, target, threshold) && MixSum(target) == 1.0
    ensures Rebalance(current, b, target, threshold).Get(a) > target.Get(a)
            <==> CurrentAllocation(b).Get(a) < target.Get(a)
    ensures Rebalance(current, b, target, threshold).Get(a) < target.Get(a)
            <==> CurrentAllocation(b).Get(a) > target.Get(a)
  {
    RebalanceIsHalfStep(current, b, target, threshold);
    HalfStepDirection(CurrentAllocation(b), target, TotalAdjustment(CurrentAllocation(b), target), a);
  }

  /**
   * Rebalanced shares are not floored at zero: with the default 45/35/5/15 target and
   * a NASDAQ holding drifted to 48% of the total, NASDAQ's new share is negative.
   */
  lemma RebalancedShareCanBeNegative()
    ensures Rebalance(Mix(0.45, 0.35, 0.05, 0.15), Balances(45.0, 60.0, 5.0, 15.0, 0.0, 0.0),
                      Mix(0.45, 0.35, 0.05, 0.15), 0.05).nasdaq < 0.0
  {
    var b := Balances(45.0, 60.0, 5.0, 15.0, 0.0, 0.0);
    var target := Mix(0.45, 0.35, 0.05, 0.15);
    var alloc := CurrentAllocation(b);
    assert alloc == Mix(0.36, 0.48, 0.04, 0.12);
    assert TotalAdjustment(alloc, target) == 0.13;
    RebalanceIsHalfStep(target, b, target, 0.05);
    assert HalfStep(alloc, target, 0.13).nasdaq == -0.15;
  }
}
