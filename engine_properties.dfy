/**
 * What the month-by-month recurrence of `run_investment_simulation` guarantees:
 * the emergency fund's closed form, the baseline's independence from the sampled
 * returns, the implied baseline contribution, and when the contribution mix may change.
 */
module EngineProperties {
  import opened Portfolio
  import opened Rebalancing
  import opened Engine

  function Pow(x: real, n: nat): real
  {
    if n == 0 then 1.0 else x * Pow(x, n - 1)
  }

  /** Month m + 1 is month m's transition applied to the state after month m. */
  lemma NextState(cfg: Config, rets: seq<Returns>, k: nat, m: nat)
    requires m == k + 1 <= |rets|
    ensures StateAt(cfg, rets, m)
            == Step(cfg, rets[k], k, StateAt(cfg, rets, k))
  {
    assert StateAt(cfg, rets, m) == AfterMonth(cfg, rets, k) == ApplyMonth(cfg, rets, k);
  }

  /** One month of the emergency fund: it only grows at the HYSA rate. */
  lemma EmergencyStep(cfg: Config, rets: seq<Returns>, k: nat, m: nat)
    requires m == k + 1 <= |rets|
    ensures StateAt(cfg, rets, m).bal.emergency
            == StateAt(cfg, rets, k).bal.emergency * (1.0 + HysaRate(cfg))
  {
    NextState(cfg, rets, k, m);
  }

  /** One month of the baseline: it receives the whole contribution and grows at the HYSA rate. */
  lemma BaselineStep(cfg: Config, rets: seq<Returns>, k: nat, m: nat)
    requires m == k + 1 <= |rets|
    ensures StateAt(cfg, rets, m).bal.baseline
            == (StateAt(cfg, rets, k).bal.baseline + cfg.contribution(k)) * (1.0 + HysaRate(cfg))
  {
    NextState(cfg, rets, k, m);
  }

  /** One month of the contribution mix: the quarterly check's outcome. */
  lemma MixStep(cfg: Config, rets: seq<Returns>, k: nat, m: nat)
    requires m == k + 1 <= |rets|
    ensures StateAt(cfg, rets, m).mix == ActiveMix(cfg, k, StateAt(cfg, rets, k))
  {
    NextState(cfg, rets, k, m);
  }

  lemma CompoundOnce(next: real, e: real, start: real, p: real, pNext: real, g: real)
    requires next == e * g && e == start * p && pNext == g * p
    ensures next == start * pNext
  {
  }

  lemma DivideOutGrowth(y: real, x: real, g: real)
    requires g != 0.0 && y == x * g
    ensures y / g == x
  {
  }

  /** The emergency fund only compounds at the HYSA rate: start * (1 + h)^m after m months. */
  lemma {:induction false} EmergencyClosedForm(cfg: Config, rets: seq<Returns>, m: nat)
    requires m <= |rets|
    ensures StateAt(cfg, rets, m).bal.emergency == cfg.emergencyStart * Pow(1.0 + HysaRate(cfg), m)
  {
    if m > 0 {
      EmergencyClosedForm(cfg, rets, m - 1);
      EmergencyStep(cfg, rets, m - 1, m);
      CompoundOnce(StateAt(cfg, rets, m).bal.emergency, StateAt(cfg, rets, m - 1).bal.emergency,
                   cfg.emergencyStart, Pow(1.0 + HysaRate(cfg), m - 1), Pow(1.0 + HysaRate(cfg), m),
                   1.0 + HysaRate(cfg));
    }
  }

  /**
   * The baseline and the emergency fund do not depend on the sampled returns, the
   * investment mix or the rebalancing settings: only on the starting amounts, the
   * schedule and the HYSA rate.
   */
  lemma {:induction false} BaselineIndependentOfReturns(cfg: Config, rets: seq<Returns>,
                                                        mix: Mix, rebalance: bool, threshold: real,
                                                        rets': seq<Returns>, m: nat)
    requires m <= |rets| && m <= |rets'|
    ensures var other := cfg.(mix := mix, rebalance := rebalance, threshold := threshold);
            && StateAt(cfg, rets, m).bal.baseline == StateAt(other, rets', m).bal.baseline
            && StateAt(cfg, rets, m).bal.emergency == StateAt(other, rets', m).bal.emergency
  {
    var other := cfg.(mix := mix, rebalance := rebalance, threshold := threshold);
    if m > 0 {
      BaselineIndependentOfReturns(cfg, rets, mix, rebalance, threshold, rets', m - 1);
      EmergencyStep(cfg, rets, m - 1, m);
      EmergencyStep(other, rets', m - 1, m);
      BaselineStep(cfg, rets, m - 1, m);
      BaselineStep(other, rets', m - 1, m);
    }
  }

  /** With a zero HYSA rate the baseline is the starting amounts plus every contribution so far. */
  lemma {:induction false} BaselineZeroRate(cfg: Config, rets: seq<Returns>, m: nat)
    requires m <= |rets| && HysaRate(cfg) == 0.0
    ensures StateAt(cfg, rets, m).bal.baseline
            == cfg.investmentStart + cfg.emergencyStart + TotalContribution(cfg.contribution, m)
  {
    if m > 0 {
      BaselineZeroRate(cfg, rets, m - 1);
      BaselineStep(cfg, rets, m - 1, m);
    }
  }

  /**
   * Back-solving the baseline recurrence recovers the schedule: the implied contribution
   * baseline[m + 1] / (1 + h) - baseline[m] is exactly the contribution of month m.
   */
  lemma ImpliedContribution(cfg: Config, rets: seq<Returns>, m: nat)
    requires m < |rets| && 1.0 + HysaRate(cfg) != 0.0
    ensures StateAt(cfg, rets, m + 1).bal.baseline / (1.0 + HysaRate(cfg))
            - StateAt(cfg, rets, m).bal.baseline == cfg.contribution(m)
  {
    BaselineStep(cfg, rets, m, m + 1);
    var g := 1.0 + HysaRate(cfg);
    var before, after := StateAt(cfg, rets, m).bal.baseline, StateAt(cfg, rets, m + 1).bal.baseline;
    var c := cfg.contribution(m);
    DivideOutGrowth(after, before + c, g);
  }

  /** At month 0 the portfolio (four assets and emergency fund) equals the baseline when the mix sums to 1. */
  lemma InitialPortfolioEqualsBaseline(cfg: Config, rets: seq<Returns>)
    requires MixSum(cfg.mix) == 1.0
    ensures PortfolioTotal(StateAt(cfg, rets, 0).bal) == StateAt(cfg, rets, 0).bal.baseline
  {
    var s := cfg.investmentStart;
    assert s * cfg.mix.sp500 + s * cfg.mix.nasdaq + s * cfg.mix.tbill + s * cfg.mix.hysa
        == s * MixSum(cfg.mix);
  }

  /** Rebalancing keeps the contribution mix summing to 1 when the target does. */
  lemma {:induction false} MixSumInvariant(cfg: Config, rets: seq<Returns>, m: nat)
    requires m <= |rets| && MixSum(cfg.mix) == 1.0
    ensures MixSum(StateAt(cfg, rets, m).mix) == 1.0
  {
    if m > 0 {
      MixSumInvariant(cfg, rets, m - 1);
      MixStep(cfg, rets, m - 1, m);
    }
  }

  /** Without rebalancing every month's contributions are split by the target mix. */
  lemma {:induction false} NoRebalancingKeepsTarget(cfg: Config, rets: seq<Returns>, m: nat)
    requires m <= |rets| && !cfg.rebalance
    ensures StateAt(cfg, rets, m).mix == cfg.mix
  {
    if m > 0 {
      NoRebalancingKeepsTarget(cfg, rets, m - 1);
      MixStep(cfg, rets, m - 1, m);
    }
  }

  /**
   * The mix in force changes only at a quarterly check that fires: rebalancing enabled,
   * a positive month divisible by 3, and a firing check on the balances before the
   * month. Otherwise the previous mix, possibly an earlier rebalanced one, is kept.
   */
  lemma MixChangesOnlyAtFiringCheck(cfg: Config, rets: seq<Returns>, m: nat)
    requires m < |rets|
    requires StateAt(cfg, rets, m + 1).mix != StateAt(cfg, rets, m).mix
    ensures cfg.rebalance && m > 0 && m % 3 == 0
    ensures Fires(StateAt(cfg, rets, m).bal, cfg.mix, cfg.threshold)
  {
    MixStep(cfg, rets, m, m + 1);
  }

  /**
   * When a quarterly check fires, the month's mix is the rebalanced one, whatever the
   * previous mix was.
   */
  lemma FiringCheckSetsMix(cfg: Config, rets: seq<Returns>, m: nat)
    requires m < |rets|
    requires cfg.rebalance && m > 0 && m % 3 == 0
    requires Fires(StateAt(cfg, rets, m).bal, cfg.mix, cfg.threshold)
    ensures StateAt(cfg, rets, m + 1).mix
            == Rebalance(StateAt(cfg, rets, m).mix, StateAt(cfg, rets, m).bal, cfg.mix, cfg.threshold)
  {
    MixStep(cfg, rets, m, m + 1);
  }

  /**
   * The whole contribution is invested: in a month with zero returns and a zero HYSA
   * rate, the portfolio grows by exactly the month's contribution, provided the target
   * sums to 1 (rebalancing only moves money between assets).
   */
  lemma ContributionFullyInvested(cfg: Config, rets: seq<Returns>, m: nat)
    requires m < |rets| && MixSum(cfg.mix) == 1.0
    requires rets[m] == Returns(0.0, 0.0, 0.0) && HysaRate(cfg) == 0.0
    ensures PortfolioTotal(StateAt(cfg, rets, m + 1).bal)
            == PortfolioTotal(StateAt(cfg, rets, m).bal) + cfg.contribution(m)
  {
    NextState(cfg, rets, m, m + 1);
    MixSumInvariant(cfg, rets, m + 1);
    var mix := StateAt(cfg, rets, m + 1).mix;
    var c := cfg.contribution(m);
    assert c * mix.sp500 + c * mix.nasdaq + c * mix.tbill + c * mix.hysa == c * MixSum(mix);
  }

  lemma SharedFactor(x: real, y: real, k: real)
    ensures x * k + y * k == (x + y) * k
  {
  }

  /**
   * Contributions credited to asset `a` over months 0 .. n - 1: each month's contribution
   * times the share for `a` of the mix it was split by.
   */
  function ContributedTo(cfg: Config, rets: seq<Returns>, a: Asset, n: nat): real
    requires n <= |rets|
  {
    if n == 0 then 0.0
    else ContributedTo(cfg, rets, a, n - 1) + cfg.contribution(n - 1) * StateAt(cfg, rets, n).mix.Get(a)
  }

  /** A month split by the target mix credits its target share. */
  lemma ContributedStep(cfg: Config, rets: seq<Returns>, a: Asset, n: nat)
    requires 0 < n <= |rets| && StateAt(cfg, rets, n).mix == cfg.mix
    ensures ContributedTo(cfg, rets, a, n) == ContributedTo(cfg, rets, a, n - 1) + cfg.contribution(n - 1) * cfg.mix.Get(a)
  {
  }

  /**
   * Without rebalancing, an asset receives exactly total contribution * target share,
   * the amount `calculate_fund_returns` assumes was invested in it.
   */
  lemma {:induction false} ContributedToWithoutRebalancing(cfg: Config, rets: seq<Returns>, a: Asset, n: nat)
    requires n <= |rets| && !cfg.rebalance
    ensures ContributedTo(cfg, rets, a, n) == TotalContribution(cfg.contribution, n) * cfg.mix.Get(a)
  {
    if n > 0 {
      ContributedToWithoutRebalancing(cfg, rets, a, n - 1);
      NoRebalancingKeepsTarget(cfg, rets, n);
      ContributedStep(cfg, rets, a, n);
      SharedFactor(TotalContribution(cfg.contribution, n - 1), cfg.contribution(n - 1), cfg.mix.Get(a));
    }
  }
}
