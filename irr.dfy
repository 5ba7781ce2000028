/**
 * The cash flows of `calculate_all_irrs`: for every run, the portfolio's flows
 * (initial value out, each month's scheduled contribution out, final value in)
 * and the baseline's flows with contributions back-solved from the baseline
 * series. The root finder is the parameter `solver`; `None` stands for its NaN,
 * and such a run contributes no IRR.
 */
module Irr {
  import opened Wrappers
  import opened Portfolio
  import opened Engine
  import opened EngineProperties

  /** The times, in years, of months 1..n: month k at k / 12. */
  function MonthTimes(n: nat): (ts: seq<real>)
    ensures |ts| == n
    ensures forall k :: 0 <= k < n ==> ts[k] == (k + 1) as real / 12.0
  {
    if n == 0 then [] else MonthTimes(n - 1) + [n as real / 12.0]
  }

  /** Flow times for a run of n months: 0, then 1/12, ..., n/12, then 15. */
  function FlowTimes(n: nat): seq<real>
  {
    [0.0] + MonthTimes(n) + [15.0]
  }

  /** The contribution outflows of months 0..n - 1. */
  function ContributionFlows(c: int -> real, n: nat): (fs: seq<real>)
    ensures |fs| == n
    ensures forall k :: 0 <= k < n ==> fs[k] == -c(k)
  {
    if n == 0 then [] else ContributionFlows(c, n - 1) + [-c(n - 1)]
  }

  /** The portfolio's flows: initial total out, one scheduled contribution per month out, final total in. */
  function PortfolioFlows(t: Trajectory, c: int -> real): seq<real>
    requires WellFormed(t)
  {
    [-PortfolioTotal(At(t, 0))] + ContributionFlows(c, Length(t) - 1) + [PortfolioTotal(Last(t))]
  }

  /** The implied contribution outflows -(b[k] / (1 + h) - b[k - 1]) for k = 1..n. */
  function ImpliedFlows(b: seq<real>, h: real, n: nat): (fs: seq<real>)
    requires n < |b| && (n == 0 || 1.0 + h != 0.0)
    ensures |fs| == n
    ensures forall k :: 0 <= k < n ==> fs[k] == -(b[k + 1] / (1.0 + h) - b[k])
  {
    if n == 0 then [] else ImpliedFlows(b, h, n - 1) + [-(b[n] / (1.0 + h) - b[n - 1])]
  }

  /**
   * The baseline's flows: baseline[0] out, the implied contributions out, the final
   * baseline in; `None` when the back-solve divides by 1 + h = 0 (the source raises).
   */
  function BaselineFlows(t: Trajectory, h: real): (r: Option<seq<real>>)
    requires WellFormed(t)
    ensures r.None? <==> Length(t) > 1 && 1.0 + h == 0.0
  {
    var n := Length(t) - 1;
    if n > 0 && 1.0 + h == 0.0 then None
    else Some([-t.baseline[0]] + ImpliedFlows(t.baseline, h, n) + [t.baseline[n]])
  }

  /** The monthly part of the portfolio loop: month k's contribution out at time k / 12, for months 1..n. */
  method ContributionLoop(c: int -> real, n: nat) returns (flows: seq<real>, times: seq<real>)
    ensures flows == ContributionFlows(c, n)
    ensures times == MonthTimes(n)
  {
    flows := [];
    times := [];
    for monthIdx := 1 to n + 1
      invariant flows == ContributionFlows(c, monthIdx - 1)
      invariant times == MonthTimes(monthIdx - 1)
    {
      flows := flows + [-c(monthIdx - 1)];
      times := times + [monthIdx as real / 12.0];
    }
  }

  /** The portfolio cash flows of one run, with their times. */
  method PortfolioCashFlows(t: Trajectory, c: int -> real) returns (flows: seq<real>, times: seq<real>)
    requires WellFormed(t)
    ensures flows == PortfolioFlows(t, c)
    ensures times == FlowTimes(Length(t) - 1)
  {
    var initial := t.sp500[0] + t.nasdaq100[0] + t.tbill3m[0] + t.hysa[0] + t.emergency[0];
    var last := |t.monthIndex| - 1;
    var monthly, monthTimes := ContributionLoop(c, last);
    var final := t.sp500[last] + t.nasdaq100[last] + t.tbill3m[last] + t.hysa[last] + t.emergency[last];
    flows := [-initial] + monthly + [final];
    times := [0.0] + monthTimes + [15.0];
  }

  /**
   * The monthly part of the baseline loop over the series b: month k's implied
   * contribution out at time k / 12, for months 1..n; `None` where the division by
   * 1 + h raises.
   */
  method ImpliedLoop(b: seq<real>, h: real, n: nat) returns (flows: Option<seq<real>>, times: seq<real>)
    requires n < |b|
    ensures flows.None? <==> n > 0 && 1.0 + h == 0.0
    ensures flows.Some? ==> flows.value == ImpliedFlows(b, h, n) && times == MonthTimes(n)
  {
    var fs: seq<real> := [];
    var ts: seq<real> := [];
    for monthIdx := 1 to n + 1
      invariant monthIdx > 1 ==> 1.0 + h != 0.0
      invariant fs == ImpliedFlows(b, h, monthIdx - 1)
      invariant ts == MonthTimes(monthIdx - 1)
    {
      if 1.0 + h == 0.0 {
        return None, ts;
      }
      var prev := b[monthIdx - 1];
      var curr := b[monthIdx];
      fs := fs + [-(curr / (1.0 + h) - prev)];
      ts := ts + [monthIdx as real / 12.0];
    }
    flows, times := Some(fs), ts;
  }

  /** The baseline cash flows of one run; `None` where the source's division raises. */
  method BaselineCashFlows(t: Trajectory, h: real) returns (flows: Option<seq<real>>, times: seq<real>)
    requires WellFormed(t)
    ensures flows == BaselineFlows(t, h)
    ensures flows.Some? ==> times == FlowTimes(Length(t) - 1)
  {
    var totalMonths := |t.monthIndex| - 1;
    var monthly, monthTimes := ImpliedLoop(t.baseline, h, totalMonths);
    if monthly.None? {
      return None, monthTimes;
    }
    flows := Some([-t.baseline[0]] + monthly.value + [t.baseline[totalMonths]]);
    times := [0.0] + monthTimes + [15.0];
  }

  /** The baseline update of the monthly loop: b[k + 1] = (b[k] + c(k)) * (1 + h). */
  predicate BaselineRecurrence(b: seq<real>, c: int -> real, h: real)
  {
    forall k :: 0 <= k < |b| - 1 ==> b[k + 1] == (b[k] + c(k)) * (1.0 + h)
  }

  /** A simulated run's baseline series follows the baseline update. */
  lemma FollowsBaselineRecurrence(t: Trajectory, cfg: Config, rets: seq<Returns>)
    requires |rets| == Months && Follows(t, cfg, rets)
    ensures BaselineRecurrence(t.baseline, cfg.contribution, HysaRate(cfg))
  {
    forall k | 0 <= k < |t.baseline| - 1
      ensures t.baseline[k + 1] == (t.baseline[k] + cfg.contribution(k)) * (1.0 + HysaRate(cfg))
    {
      assert At(t, k + 1) == StateAt(cfg, rets, k + 1).bal;
      assert At(t, k) == StateAt(cfg, rets, k).bal;
      BaselineStep(cfg, rets, k, k + 1);
    }
  }

  lemma BackSolve(next: real, prev: real, contribution: real, g: real)
    requires g != 0.0 && next == (prev + contribution) * g
    ensures -(next / g - prev) == -contribution
  {
    DivideOutGrowth(next, prev + contribution, g);
  }

  lemma ImpliedFlowAt(b: seq<real>, c: int -> real, h: real, j: nat)
    requires 1.0 + h != 0.0 && BaselineRecurrence(b, c, h) && j < |b| - 1
    ensures ImpliedFlows(b, h, |b| - 1)[j] == -c(j)
  {
    var next, prev := b[j + 1], b[j];
    assert next == (prev + c(j)) * (1.0 + h);
    BackSolve(next, prev, c(j), 1.0 + h);
  }

  /** Back-solving a series that follows the baseline update recovers every contribution. */
  lemma ImpliedFlowsRecoverSchedule(b: seq<real>, c: int -> real, h: real)
    requires |b| >= 1 && 1.0 + h != 0.0 && BaselineRecurrence(b, c, h)
    ensures ImpliedFlows(b, h, |b| - 1) == ContributionFlows(c, |b| - 1)
  {
    var implied := ImpliedFlows(b, h, |b| - 1);
    forall j | 0 <= j < |b| - 1
      ensures implied[j] == -c(j)
    {
      ImpliedFlowAt(b, c, h, j);
    }
  }

  /**
   * On a simulated run, the baseline's back-solved flows are the portfolio's flows:
   * the same scheduled contribution in every month, and, when the mix sums to 1, the
   * same initial outflow. The two IRRs differ only through the final values.
   */
  lemma BaselineFlowsMatchPortfolio(t: Trajectory, cfg: Config, rets: seq<Returns>)
    requires |rets| == Months && Follows(t, cfg, rets) && 1.0 + HysaRate(cfg) != 0.0
    ensures BaselineFlows(t, HysaRate(cfg)).Some?
    ensures var b, p := BaselineFlows(t, HysaRate(cfg)).value, PortfolioFlows(t, cfg.contribution);
            |b| == |p| == Months + 2 && b[1..Months + 1] == p[1..Months + 1]
    ensures MixSum(cfg.mix) == 1.0 ==>
              BaselineFlows(t, HysaRate(cfg)).value[0] == PortfolioFlows(t, cfg.contribution)[0]
  {
    var b, p := BaselineFlows(t, HysaRate(cfg)).value, PortfolioFlows(t, cfg.contribution);
    FollowsBaselineRecurrence(t, cfg, rets);
    ImpliedFlowsRecoverSchedule(t.baseline, cfg.contribution, HysaRate(cfg));
    assert b[1..Months + 1] == ImpliedFlows(t.baseline, HysaRate(cfg), Months);
    assert p[1..Months + 1] == ContributionFlows(cfg.contribution, Months);
    if MixSum(cfg.mix) == 1.0 {
      assert At(t, 0) == StateAt(cfg, rets, 0).bal;
      InitialPortfolioEqualsBaseline(cfg, rets);
    }
  }

  /** The two lists of `calculate_all_irrs`, in percent. */
  datatype IrrReturns = IrrReturns(irrs: seq<real>, baselineIrrs: seq<real>)

  /** A solver outcome as the source keeps it: NaN skipped, a rate scaled to percent. */
  function Kept(irr: Option<real>): seq<real>
  {
    if irr.Some? then [irr.value * 100.0] else []
  }

  /**
   * One run's contribution to the two lists: its portfolio IRR and its baseline IRR,
   * each kept only when the solver converges; `None` when the baseline back-solve raises.
   */
  function RunOutcome(t: Trajectory, c: int -> real, h: real,
                      solver: (seq<real>, seq<real>) -> Option<real>): Option<IrrReturns>
    requires WellFormed(t)
  {
    var b := BaselineFlows(t, h);
    if b.None? then None
    else
      var times := FlowTimes(Length(t) - 1);
      Some(IrrReturns(Kept(solver(PortfolioFlows(t, c), times)), Kept(solver(b.value, times))))
  }

  /** The IRR lists of the runs, in run order; `None` when some run's baseline back-solve raises. */
  function AllIrrs(runs: seq<Run>, c: int -> real, h: real,
                   solver: (seq<real>, seq<real>) -> Option<real>): Option<IrrReturns>
    requires AllWellFormed(runs)
  {
    if runs == [] then Some(IrrReturns([], []))
    else
      var acc := AllIrrs(runs[..|runs| - 1], c, h, solver);
      var one := RunOutcome(runs[|runs| - 1].trajectory, c, h, solver);
      if acc.None? || one.None? then None
      else Some(IrrReturns(acc.value.irrs + one.value.irrs, acc.value.baselineIrrs + one.value.baselineIrrs))
  }

  /** The body of `calculate_all_irrs`'s loop for one run. */
  method RunIrrs(t: Trajectory, c: int -> real, h: real, solver: (seq<real>, seq<real>) -> Option<real>)
    returns (r: Option<IrrReturns>)
    requires WellFormed(t)
    ensures r == RunOutcome(t, c, h, solver)
  {
    var flows, times := PortfolioCashFlows(t, c);
    var irr := solver(flows, times);
    var irrs := if irr.Some? then [irr.value * 100.0] else [];
    var baselineFlows, baselineTimes := BaselineCashFlows(t, h);
    if baselineFlows.None? {
      return None;
    }
    var baselineIrr := solver(baselineFlows.value, baselineTimes);
    var baselineIrrs := if baselineIrr.Some? then [baselineIrr.value * 100.0] else [];
    r := Some(IrrReturns(irrs, baselineIrrs));
  }

  /** The loop of `calculate_all_irrs` over all runs. */
  method CalculateAllIrrs(runs: seq<Run>, c: int -> real, h: real,
                          solver: (seq<real>, seq<real>) -> Option<real>)
    returns (result: Option<IrrReturns>)
    requires AllWellFormed(runs)
    ensures result == AllIrrs(runs, c, h, solver)
  {
    var irrs, baselineIrrs := [], [];
    var idx := 0;
    while idx < |runs|
      invariant 0 <= idx <= |runs|
      invariant AllIrrs(runs[..idx], c, h, solver) == Some(IrrReturns(irrs, baselineIrrs))
    {
      assert runs[..idx + 1][..idx] == runs[..idx];
      var one := RunIrrs(runs[idx].trajectory, c, h, solver);
      if one.None? {
        AbortPropagates(runs, c, h, solver, idx + 1);
        return None;
      }
      irrs, baselineIrrs := irrs + one.value.irrs, baselineIrrs + one.value.baselineIrrs;
      idx := idx + 1;
    }
    assert runs[..idx] == runs;
    result := Some(IrrReturns(irrs, baselineIrrs));
  }

  /** Once a prefix aborts, every longer prefix aborts too. */
  lemma {:induction false} AbortPropagates(runs: seq<Run>, c: int -> real, h: real,
                                           solver: (seq<real>, seq<real>) -> Option<real>, n: nat)
    requires AllWellFormed(runs) && n <= |runs|
    requires AllIrrs(runs[..n], c, h, solver).None?
    ensures AllIrrs(runs, c, h, solver).None?
    decreases |runs| - n
  {
    if n < |runs| {
      assert runs[..n + 1][..n] == runs[..n];
      AbortPropagates(runs, c, h, solver, n + 1);
    } else {
      assert runs[..n] == runs;
    }
  }

  /**
   * The IRR computation aborts exactly when the HYSA rate is -1 and some run has at
   * least one month; otherwise each list has at most one entry per run, and exactly
   * one when the solver converges on every run.
   */
  lemma {:induction false} AllIrrsOutcome(runs: seq<Run>, c: int -> real, h: real,
                                          solver: (seq<real>, seq<real>) -> Option<real>)
    requires AllWellFormed(runs)
    ensures AllIrrs(runs, c, h, solver).None?
            <==> 1.0 + h == 0.0 && exists i :: 0 <= i < |runs| && Length(runs[i].trajectory) > 1
    ensures AllIrrs(runs, c, h, solver).Some? ==>
              |AllIrrs(runs, c, h, solver).value.irrs| <= |runs|
              && |AllIrrs(runs, c, h, solver).value.baselineIrrs| <= |runs|
    ensures AllIrrs(runs, c, h, solver).Some?
            && (forall i :: 0 <= i < |runs| ==>
                  solver(PortfolioFlows(runs[i].trajectory, c), FlowTimes(Length(runs[i].trajectory) - 1)).Some?)
            ==> |AllIrrs(runs, c, h, solver).value.irrs| == |runs|
  {
    if runs != [] {
      var init := runs[..|runs| - 1];
      AllIrrsOutcome(init, c, h, solver);
      var last := runs[|runs| - 1];
      assert forall i :: 0 <= i < |init| ==> init[i] == runs[i];
      if 1.0 + h == 0.0 && Length(last.trajectory) > 1 {
        assert RunOutcome(last.trajectory, c, h, solver).None?;
      }
    }
  }
}
