/**
 * The monthly-return sampler (`calculate_monthly_return`). The conversion of an
 * annual return to its average monthly rate, (1 + y)^(1/12) - 1, is the parameter
 * `monthlyRate`; the twelve Gaussian draws are the input `draws`.
 */
module Sampler {
  import opened Portfolio

  /** Twelve draws of a zero standard deviation: the deterministic case used for the HYSA rate. */
  function ZeroDraws(): (z: seq<real>)
    ensures |z| == MonthsPerYear && forall i :: 0 <= i < |z| ==> z[i] == 0.0
  {
    seq(MonthsPerYear, _ => 0.0)
  }

  /** Twelve monthly returns, each the average monthly rate of `yearlyReturn` plus that month's draw. */
  method CalculateMonthlyReturn(monthlyRate: real -> real, yearlyReturn: real, draws: seq<real>)
    returns (r: seq<real>)
    requires |draws| == MonthsPerYear
    ensures |r| == MonthsPerYear
    ensures forall i :: 0 <= i < MonthsPerYear ==> r[i] == monthlyRate(yearlyReturn) + draws[i]
  {
    var avg := monthlyRate(yearlyReturn);
    r := [];
    var i := 0;
    while i < MonthsPerYear
      invariant 0 <= i <= MonthsPerYear
      invariant |r| == i
      invariant forall k :: 0 <= k < i ==> r[k] == avg + draws[k]
    {
      r := r + [avg + draws[i]];
      i := i + 1;
    }
  }
}
