/**
 * The month-by-month portfolio state machine of `run_investment_simulation`.
 * `StateAt` is the specification: the balances and the active contribution mix
 * after m months. `SimulateRun` is the source's nested 15 x 12 loop that appends
 * to the six balance lists, proved to produce exactly `StateAt` for every month.
 */
module Engine {
  import opened Portfolio
  import opened Sequences
  import opened Sampler
  import opened Rebalancing

  /**
   * Scalar configuration of one simulation. `monthlyRate` is the conversion
   * (1 + y)^(1/12) - 1 of an annual return to its average monthly rate;
   * `contribution` is the schedule month -> amount.
   */
  datatype Config = Config(mix: Mix, investmentStart: real, emergencyStart: real,
                           hysaApy: real, monthlyRate: real -> real,
                           contribution: int -> real, rebalance: bool, threshold: real)

  /** The Gaussian draws of one simulated year: twelve per volatile asset. */
  datatype YearDraws = YearDraws(sp500: seq<real>, nasdaq100: seq<real>, tbill3m: seq<real>)

  /** The draws of one run: one year's draws for each of the 15 years. */
  predicate DrawsOk(draws: seq<YearDraws>)
  {
    && |draws| == Years
    && forall y :: 0 <= y < |draws| ==>
         |draws[y].sp500| == MonthsPerYear && |draws[y].nasdaq100| == MonthsPerYear
         && |draws[y].tbill3m| == MonthsPerYear
  }

  /** The sampled monthly returns of the three volatile assets in one month. */
  datatype Returns = Returns(sp500: real, nasdaq100: real, tbill3m: real)

  /** The state carried from month to month: the six balances and the active contribution mix. */
  datatype SimState = SimState(bal: Balances, mix: Mix)

  /** The deterministic HYSA monthly rate (the sampler with standard deviation 0). */
  function HysaRate(cfg: Config): real
  {
    cfg.monthlyRate(cfg.hysaApy)
  }

  /** Month m's sampled returns: the average monthly rate of year m / 12 plus draw m % 12. */
  function MonthReturns(cfg: Config, w: Window, draws: seq<YearDraws>, m: nat): Returns
    requires Simulatable(w) && DrawsOk(draws) && m < Months
  {
    var y, k := m / 12, m % 12;
    Returns(cfg.monthlyRate(w.sp500.value[y] / 100.0) + draws[y].sp500[k],
            cfg.monthlyRate(w.nasdaq100.value[y] / 100.0) + draws[y].nasdaq100[k],
            cfg.monthlyRate(w.tbill3m.value[y] / 100.0) + draws[y].tbill3m[k])
  }

  /** Month 0: the initial investment split by the target mix, the emergency fund, and the baseline holding both. */
  function Initial(cfg: Config): SimState
  {
    var start := cfg.investmentStart;
    SimState(Balances(start * cfg.mix.sp500, start * cfg.mix.nasdaq, start * cfg.mix.tbill,
                      start * cfg.mix.hysa, cfg.emergencyStart, start + cfg.emergencyStart),
             cfg.mix)
  }

  /** The contribution mix used in month m: rechecked at every positive multiple of 3 when enabled. */
  function ActiveMix(cfg: Config, m: nat, s: SimState): Mix
  {
    if cfg.rebalance && m > 0 && m % 3 == 0 then Rebalance(s.mix, s.bal, cfg.mix, cfg.threshold)
    else s.mix
  }

  /**
   * One month: each asset receives its share of the contribution and then grows by its
   * return; the baseline receives the whole contribution at the HYSA rate; the emergency
   * fund only grows at the HYSA rate.
   */
  function Step(cfg: Config, r: Returns, m: nat, s: SimState): SimState
  {
    var mix := ActiveMix(cfg, m, s);
    SimState(Grow(s.bal, cfg.contribution(m), mix, r, HysaRate(cfg)), mix)
  }

  /** The six balances a month later, for contribution c split by `mix`, returns r and HYSA rate h. */
  function Grow(b: Balances, c: real, mix: Mix, r: Returns, h: real): Balances
  {
    Balances((b.sp500 + c * mix.sp500) * (1.0 + r.sp500),
             (b.nasdaq + c * mix.nasdaq) * (1.0 + r.nasdaq100),
             (b.tbill + c * mix.tbill) * (1.0 + r.tbill3m),
             (b.hysa + c * mix.hysa) * (1.0 + h),
             b.emergency * (1.0 + h),
             (b.baseline + c) * (1.0 + h))
  }

  /** The 180 monthly returns of one run, month by month. */
  function RunReturns(cfg: Config, w: Window, draws: seq<YearDraws>): seq<Returns>
    requires Simulatable(w) && DrawsOk(draws)
  {
    seq(Months, m requires 0 <= m < Months => MonthReturns(cfg, w, draws, m))
  }

  /**
   * The state after m months of a run whose monthly returns are `rets`
   * (`RunReturns` for the sampled run).
   */
  function StateAt(cfg: Config, rets: seq<Returns>, m: nat): SimState
    requires m <= |rets|
    decreases m, 0
  {
    if m == 0 then Initial(cfg) else AfterMonth(cfg, rets, m - 1)
  }

  /** The state after month k, that is after k + 1 months. */
  function AfterMonth(cfg: Config, rets: seq<Returns>, k: nat): SimState
    requires k < |rets|
    decreases k, 3
  {
    ApplyMonth(cfg, rets, k)
  }

  /**
   * Month k's transition applied to the state after k months. A layer of its own in
   * the recursion, so that unfolding `StateAt` twice stops before `Step`'s arithmetic.
   */
  function ApplyMonth(cfg: Config, rets: seq<Returns>, k: nat): SimState
    requires k < |rets|
    decreases k, 2
  {
    Step(cfg, rets[k], k, StateAt(cfg, rets, k))
  }

  /** The first n + 1 months of `t` are months 0..n of the run with returns `rets`. */
  predicate Agrees(t: Trajectory, cfg: Config, rets: seq<Returns>, n: nat)
    requires n <= |rets|
  {
    && WellFormed(t) && Length(t) == n + 1
    && forall k {:trigger At(t, k)} :: 0 <= k <= n ==>
         t.monthIndex[k] == k && At(t, k) == StateAt(cfg, rets, k).bal
  }

  /** `t` is the full 181-entry trajectory of the run with returns `rets`. */
  predicate Follows(t: Trajectory, cfg: Config, rets: seq<Returns>)
    requires |rets| == Months
  {
    Agrees(t, cfg, rets, Months)
  }

  /** The trajectory with one more month appended to every series. */
  function Append(t: Trajectory, month: int, b: Balances): Trajectory
  {
    Trajectory(t.monthIndex + [month], t.sp500 + [b.sp500], t.nasdaq100 + [b.nasdaq],
               t.tbill3m + [b.tbill], t.hysa + [b.hysa], t.emergency + [b.emergency],
               t.baseline + [b.baseline])
  }

  lemma AppendAgrees(t: Trajectory, cfg: Config, rets: seq<Returns>, n: nat)
    requires n < |rets|
    requires Agrees(t, cfg, rets, n)
    ensures Agrees(Append(t, n + 1, StateAt(cfg, rets, n + 1).bal), cfg, rets, n + 1)
  {
    var t' := Append(t, n + 1, StateAt(cfg, rets, n + 1).bal);
    forall k | 0 <= k <= n + 1
      ensures t'.monthIndex[k] == k && At(t', k) == StateAt(cfg, rets, k).bal
    {
      if k <= n {
        assert At(t', k) == At(t, k);
      }
    }
  }

  lemma MonthOfYear(year: nat, month: nat)
    requires month < MonthsPerYear
    ensures (12 * year + month) / 12 == year
    ensures (12 * year + month) % 12 == month
  {
  }

  /** Month 12 * year + month of a run has the returns of year `year`, position `month`. */
  lemma MonthReturnsOfYear(cfg: Config, w: Window, draws: seq<YearDraws>, year: nat, month: nat)
    requires Simulatable(w) && DrawsOk(draws) && year < Years && month < MonthsPerYear
    ensures RunReturns(cfg, w, draws)[12 * year + month]
            == Returns(cfg.monthlyRate(w.sp500.value[year] / 100.0) + draws[year].sp500[month],
                       cfg.monthlyRate(w.nasdaq100.value[year] / 100.0) + draws[year].nasdaq100[month],
                       cfg.monthlyRate(w.tbill3m.value[year] / 100.0) + draws[year].tbill3m[month])
  {
    MonthOfYear(year, month);
  }

  /**
   * Month 12 * year + i of a run has the returns the sampler produced for year `year`:
   * position i of the year's twelve monthly returns of each volatile asset.
   */
  lemma YearReturns(cfg: Config, w: Window, draws: seq<YearDraws>, year: nat,
                    spReturns: seq<real>, nqReturns: seq<real>, tbReturns: seq<real>)
    requires Simulatable(w) && DrawsOk(draws) && year < Years
    requires |spReturns| == |nqReturns| == |tbReturns| == MonthsPerYear
    requires forall i :: 0 <= i < MonthsPerYear ==>
               spReturns[i] == cfg.monthlyRate(w.sp500.value[year] / 100.0) + draws[year].sp500[i]
    requires forall i :: 0 <= i < MonthsPerYear ==>
               nqReturns[i] == cfg.monthlyRate(w.nasdaq100.value[year] / 100.0) + draws[year].nasdaq100[i]
    requires forall i :: 0 <= i < MonthsPerYear ==>
               tbReturns[i] == cfg.monthlyRate(w.tbill3m.value[year] / 100.0) + draws[year].tbill3m[i]
    ensures forall i :: 0 <= i < MonthsPerYear ==>
              RunReturns(cfg, w, draws)[12 * year + i] == Returns(spReturns[i], nqReturns[i], tbReturns[i])
  {
    forall i | 0 <= i < MonthsPerYear
      ensures RunReturns(cfg, w, draws)[12 * year + i] == Returns(spReturns[i], nqReturns[i], tbReturns[i])
    {
      MonthReturnsOfYear(cfg, w, draws, year, i);
    }
  }

  /**
   * The arithmetic of the monthly loop body: the quarterly rebalancing check, then the
   * contribution split by the active mix and each balance's growth.
   */
  method MonthTransition(cfg: Config, ghost rets: seq<Returns>, current: nat,
                         prev: Balances, currentMix: Mix, h: real, r: Returns)
    returns (next: Balances, mix': Mix)
    requires current < |rets|
    requires prev == StateAt(cfg, rets, current).bal
    requires currentMix == StateAt(cfg, rets, current).mix
    requires h == HysaRate(cfg) && r == rets[current]
    ensures next == StateAt(cfg, rets, current + 1).bal
    ensures mix' == StateAt(cfg, rets, current + 1).mix
  {
    mix' := currentMix;
    if cfg.rebalance && current > 0 && current % 3 == 0 {
      mix' := Rebalance(mix', prev, cfg.mix, cfg.threshold);
    }
    var c := cfg.contribution(current);
    next := Grow(prev, c, mix', r, h);
    assert StateAt(cfg, rets, current + 1) == AfterMonth(cfg, rets, current) == ApplyMonth(cfg, rets, current);
  }

  /** The last entry of a trajectory agreeing up to month n is month n. */
  lemma AgreesLast(t: Trajectory, cfg: Config, rets: seq<Returns>, n: nat)
    requires n <= |rets|
    requires Agrees(t, cfg, rets, n)
    ensures t.monthIndex[|t.monthIndex| - 1] == n
    ensures Last(t) == StateAt(cfg, rets, n).bal
  {
    assert At(t, n) == StateAt(cfg, rets, n).bal;
  }

  /** Every run starts from the initial investment split by the target mix, the emergency fund, and their sum as the baseline. */
  lemma FollowsStart(t: Trajectory, cfg: Config, rets: seq<Returns>)
    requires |rets| == Months
    requires Follows(t, cfg, rets)
    ensures t.monthIndex[0] == 0
    ensures t.sp500[0] == cfg.investmentStart * cfg.mix.sp500
    ensures t.nasdaq100[0] == cfg.investmentStart * cfg.mix.nasdaq
    ensures t.tbill3m[0] == cfg.investmentStart * cfg.mix.tbill
    ensures t.hysa[0] == cfg.investmentStart * cfg.mix.hysa
    ensures t.emergency[0] == cfg.emergencyStart
    ensures t.baseline[0] == cfg.investmentStart + cfg.emergencyStart
  {
    assert At(t, 0) == StateAt(cfg, rets, 0).bal;
  }

  /** `t` holds months 0..n of the run and `mix` is the contribution mix in force after month n. */
  predicate Tracks(t: Trajectory, mix: Mix, cfg: Config, rets: seq<Returns>, n: nat)
    requires n <= |rets|
  {
    Agrees(t, cfg, rets, n) && mix == StateAt(cfg, rets, n).mix
  }

  /** Month n = 12 * year + month of a run: read the last month index and balances, step, and append. */
  method SimulateMonth(cfg: Config, ghost rets: seq<Returns>, month: nat, ghost n: nat,
                       t0: Trajectory, mix0: Mix, h: real,
                       spReturns: seq<real>, nqReturns: seq<real>, tbReturns: seq<real>)
    returns (t: Trajectory, currentMix: Mix)
    requires n < |rets| && month < |spReturns| == |nqReturns| == |tbReturns|
    requires Tracks(t0, mix0, cfg, rets, n)
    requires h == HysaRate(cfg)
    requires rets[n] == Returns(spReturns[month], nqReturns[month], tbReturns[month])
    ensures Tracks(t, currentMix, cfg, rets, n + 1)
  {
    AgreesLast(t0, cfg, rets, n);
    var current := t0.monthIndex[|t0.monthIndex| - 1];
    var next;
    next, currentMix := MonthTransition(cfg, rets, current, Last(t0), mix0, h,
                                        Returns(spReturns[month], nqReturns[month], tbReturns[month]));
    AppendAgrees(t0, cfg, rets, n);
    t := Append(t0, current + 1, next);
  }

  /**
   * Year `year` of a run: sample the year's twelve returns per volatile asset, then run
   * its twelve months, from month 12 * year to month 12 * year + 12.
   */
  method SimulateYear(cfg: Config, w: Window, draws: seq<YearDraws>, year: nat,
                      t0: Trajectory, mix0: Mix, h: real)
    returns (t: Trajectory, currentMix: Mix)
    requires Simulatable(w) && DrawsOk(draws) && year < Years
    requires Tracks(t0, mix0, cfg, RunReturns(cfg, w, draws), 12 * year)
    requires h == HysaRate(cfg)
    ensures Tracks(t, currentMix, cfg, RunReturns(cfg, w, draws), 12 * year + 12)
  {
    ghost var rets := RunReturns(cfg, w, draws);
    var spReturns := CalculateMonthlyReturn(cfg.monthlyRate, w.sp500.value[year] / 100.0,
                                            draws[year].sp500);
    var nqReturns := CalculateMonthlyReturn(cfg.monthlyRate, w.nasdaq100.value[year] / 100.0,
                                            draws[year].nasdaq100);
    var tbReturns := CalculateMonthlyReturn(cfg.monthlyRate, w.tbill3m.value[year] / 100.0,
                                            draws[year].tbill3m);
    YearReturns(cfg, w, draws, year, spReturns, nqReturns, tbReturns);
    t, currentMix := t0, mix0;
    var month := 0;
    ghost var n := 12 * year;
    while month < 12
      invariant 0 <= month <= 12 && n == 12 * year + month
      invariant Tracks(t, currentMix, cfg, rets, n)
    {
      t, currentMix := SimulateMonth(cfg, rets, month, n, t, currentMix, h,
                                     spReturns, nqReturns, tbReturns);
      month := month + 1;
      n := n + 1;
    }
  }

  /**
   * One (sequence, iteration) run: the initial balances, then 15 years of twelve months.
   * The HYSA rate is the sampler's output with all draws zero.
   */
  method SimulateRun(cfg: Config, w: Window, draws: seq<YearDraws>) returns (t: Trajectory)
    requires Simulatable(w) && DrawsOk(draws)
    ensures Follows(t, cfg, RunReturns(cfg, w, draws))
  {
    ghost var rets := RunReturns(cfg, w, draws);
    var hysaRates := CalculateMonthlyReturn(cfg.monthlyRate, cfg.hysaApy, ZeroDraws());
    var h := hysaRates[0];
    var start := cfg.investmentStart;
    t := Trajectory([0], [start * cfg.mix.sp500], [start * cfg.mix.nasdaq],
                    [start * cfg.mix.tbill], [start * cfg.mix.hysa], [cfg.emergencyStart],
                    [start + cfg.emergencyStart]);
    var currentMix := cfg.mix;
    var year := 0;
    assert At(t, 0) == StateAt(cfg, rets, 0).bal;
    while year < Years
      invariant 0 <= year <= Years
      invariant Tracks(t, currentMix, cfg, rets, 12 * year)
    {
      t, currentMix := SimulateYear(cfg, w, draws, year, t, currentMix, h);
      year := year + 1;
    }
  }
}
