/**
 * Shared data model of the simulation engine: the four-asset investment mix,
 * one month's balances, a run's trajectory (the `investment_breakdown` dict of
 * parallel lists) and the tagged run record of `simulation_results`.
 */
module Portfolio {

  /** A simulation always spans 15 years of 12 months. */
  const Years: nat := 15
  const MonthsPerYear: nat := 12
  const Months: nat := 180

  /** The four investable assets, in the order the source iterates them. */
  datatype Asset = SP500 | NASDAQ | TBill | HYSA

  /** A contribution split: one fraction per investable asset. */
  datatype Mix = Mix(sp500: real, nasdaq: real, tbill: real, hysa: real)
  {
    function Get(a: Asset): real
    {
      match a
      case SP500 => sp500
      case NASDAQ => nasdaq
      case TBill => tbill
      case HYSA => hysa
    }
  }

  function MixSum(m: Mix): real
  {
    m.sp500 + m.nasdaq + m.tbill + m.hysa
  }

  /** The six balances of one month: four assets, the emergency fund and the baseline. */
  datatype Balances = Balances(sp500: real, nasdaq: real, tbill: real, hysa: real,
                               emergency: real, baseline: real)

  /** Total of the four investable assets (the emergency fund and baseline excluded). */
  function FourAssetTotal(b: Balances): real
  {
    b.sp500 + b.nasdaq + b.tbill + b.hysa
  }

  /** Portfolio value: the four assets plus the emergency fund (the baseline excluded). */
  function PortfolioTotal(b: Balances): real
  {
    FourAssetTotal(b) + b.emergency
  }

  /** One run's trajectory: `Month_Index` and the six balance series, month by month. */
  datatype Trajectory = Trajectory(monthIndex: seq<int>,
                                   sp500: seq<real>, nasdaq100: seq<real>, tbill3m: seq<real>,
                                   hysa: seq<real>, emergency: seq<real>, baseline: seq<real>)

  /** Every series has one entry per month index, and there is at least month 0. */
  predicate WellFormed(t: Trajectory)
  {
    && |t.monthIndex| >= 1
    && |t.sp500| == |t.monthIndex| && |t.nasdaq100| == |t.monthIndex|
    && |t.tbill3m| == |t.monthIndex| && |t.hysa| == |t.monthIndex|
    && |t.emergency| == |t.monthIndex| && |t.baseline| == |t.monthIndex|
  }

  /** Number of month entries of a trajectory. */
  function Length(t: Trajectory): nat
  {
    |t.monthIndex|
  }

  /** The balances recorded at position k of the trajectory. */
  function At(t: Trajectory, k: nat): Balances
    requires WellFormed(t) && k < Length(t)
  {
    Balances(t.sp500[k], t.nasdaq100[k], t.tbill3m[k], t.hysa[k], t.emergency[k], t.baseline[k])
  }

  /** The last recorded balances. */
  function Last(t: Trajectory): Balances
    requires WellFormed(t)
  {
    At(t, Length(t) - 1)
  }

  /** Sum of the scheduled contributions of months 0 .. n - 1. */
  function TotalContribution(c: int -> real, n: nat): real
  {
    if n == 0 then 0.0 else TotalContribution(c, n - 1) + c(n - 1)
  }

  /** One entry of `simulation_results`: the tags and the trajectory of one (sequence, iteration) pair. */
  datatype Run = Run(iteration: nat, sequenceIndex: nat, startYear: int, endYear: int,
                     trajectory: Trajectory)

  predicate AllWellFormed(runs: seq<Run>)
  {
    forall i :: 0 <= i < |runs| ==> WellFormed(runs[i].trajectory)
  }
}
