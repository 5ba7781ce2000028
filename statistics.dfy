/**
 * The reductions over the runs of a simulation: `extract_simulation_data`
 * (final values, baselines, per-month totals, sequence tags), the filter, mean
 * and beat-the-baseline parts of `calculate_milestone_statistics`, and the
 * contribution totals and guards of `calculate_fund_returns`. The percentile
 * and the fifteenth root are parameters.
 */
module Statistics {
  import opened Wrappers
  import opened Portfolio
  import opened Engine
  import opened EngineProperties

  // ---------------------------------------------------------------------------
  // Arithmetic mean and the beat-the-baseline percentage
  // ---------------------------------------------------------------------------

  function Sum(xs: seq<real>): real
  {
    if xs == [] then 0.0 else Sum(xs[..|xs| - 1]) + xs[|xs| - 1]
  }

  /** `np.mean`: `None` for an empty array (numpy's NaN). */
  function Mean(xs: seq<real>): (r: Option<real>)
    ensures r.None? <==> xs == []
  {
    if xs == [] then None else Some(Sum(xs) / |xs| as real)
  }

  lemma {:induction false} SumBounds(xs: seq<real>, lo: real, hi: real)
    requires forall i :: 0 <= i < |xs| ==> lo <= xs[i] <= hi
    ensures lo * |xs| as real <= Sum(xs) <= hi * |xs| as real
  {
    if xs != [] {
      var init := xs[..|xs| - 1];
      assert forall i :: 0 <= i < |init| ==> init[i] == xs[i];
      SumBounds(init, lo, hi);
      var n, last := |init| as real, xs[|xs| - 1];
      assert Sum(xs) == Sum(init) + last;
      assert |xs| as real == n + 1.0;
      assert lo <= last <= hi;
      OneMore(lo, n);
      OneMore(hi, n);
    }
  }

  lemma OneMore(k: real, n: real)
    ensures k * (n + 1.0) == k * n + k
  {
  }

  lemma QuotientBounds(s: real, n: real, lo: real, hi: real)
    requires n > 0.0 && lo * n <= s <= hi * n
    ensures lo <= s / n <= hi
  {
    var q := s / n;
    assert q * n == s;
    assert lo * n <= q * n <= hi * n;
  }

  /** The mean of values that all lie in [lo, hi] lies in [lo, hi]. */
  lemma MeanWithin(xs: seq<real>, lo: real, hi: real)
    requires xs != []
    requires forall i :: 0 <= i < |xs| ==> lo <= xs[i] <= hi
    ensures lo <= Mean(xs).value <= hi
  {
    SumBounds(xs, lo, hi);
    QuotientBounds(Sum(xs), |xs| as real, lo, hi);
  }

  /** The number of positions where the value strictly exceeds its baseline. */
  function BeatCount(values: seq<real>, baselines: seq<real>): nat
    requires |values| == |baselines|
  {
    if values == [] then 0
    else BeatCount(values[..|values| - 1], baselines[..|baselines| - 1])
         + (if values[|values| - 1] > baselines[|baselines| - 1] then 1 else 0)
  }

  /**
   * The share of values above their baseline, in percent; `None` for no values
   * (numpy's NaN from 0 / 0).
   */
  function BeatPct(values: seq<real>, baselines: seq<real>): (r: Option<real>)
    requires |values| == |baselines|
    ensures r.None? <==> values == []
  {
    if values == [] then None
    else Some(BeatCount(values, baselines) as real / |values| as real * 100.0)
  }

  /** The count is at most the length; it equals it iff every value beats, and is 0 iff none does. */
  lemma {:induction false} BeatCountBounds(values: seq<real>, baselines: seq<real>)
    requires |values| == |baselines|
    ensures BeatCount(values, baselines) <= |values|
    ensures BeatCount(values, baselines) == |values|
            <==> forall i :: 0 <= i < |values| ==> values[i] > baselines[i]
    ensures BeatCount(values, baselines) == 0
            <==> forall i :: 0 <= i < |values| ==> values[i] <= baselines[i]
  {
    if values != [] {
      var n := |values| - 1;
      var vs, bs := values[..n], baselines[..n];
      BeatCountBounds(vs, bs);
      assert forall i :: 0 <= i < n ==> vs[i] == values[i] && bs[i] == baselines[i];
    }
  }

  /**
   * The beat-the-baseline percentage lies in [0, 100]; it is 100 exactly when every
   * run beats its baseline and 0 exactly when none does.
   */
  lemma BeatPctRange(values: seq<real>, baselines: seq<real>)
    requires |values| == |baselines| && values != []
    ensures 0.0 <= BeatPct(values, baselines).value <= 100.0
    ensures BeatPct(values, baselines).value == 100.0
            <==> forall i :: 0 <= i < |values| ==> values[i] > baselines[i]
    ensures BeatPct(values, baselines).value == 0.0
            <==> forall i :: 0 <= i < |values| ==> values[i] <= baselines[i]
  {
    BeatCountBounds(values, baselines);
    Percentage(BeatCount(values, baselines) as real, |values| as real);
  }

  /** k out of n as a percentage, for 0 <= k <= n. */
  lemma Percentage(k: real, n: real)
    requires 0.0 <= k <= n && n > 0.0
    ensures 0.0 <= k / n * 100.0 <= 100.0
    ensures k / n * 100.0 == 100.0 <==> k == n
    ensures k / n * 100.0 == 0.0 <==> k == 0.0
  {
    QuotientBounds(k, n, 0.0, 1.0);
    var q := k / n;
    assert q * n == k;
  }

  // ---------------------------------------------------------------------------
  // extract_simulation_data
  // ---------------------------------------------------------------------------

  /** The portfolio total (four assets and the emergency fund) of the last month. */
  function FinalValue(t: Trajectory): real
    requires WellFormed(t)
  {
    PortfolioTotal(Last(t))
  }

  /** The portfolio total of every recorded month. */
  function Timeseries(t: Trajectory): seq<real>
    requires WellFormed(t)
  {
    seq(Length(t), j requires 0 <= j < Length(t) => PortfolioTotal(At(t, j)))
  }

  /** The four arrays of `extract_simulation_data`, one entry per run in run order. */
  datatype Extracted = Extracted(finalValues: seq<real>, baselines: seq<real>,
                                 timeseries: seq<seq<real>>, sequenceIndices: seq<nat>)

  function Extract(runs: seq<Run>): Extracted
    requires AllWellFormed(runs)
  {
    Extracted(seq(|runs|, i requires 0 <= i < |runs| => FinalValue(runs[i].trajectory)),
              seq(|runs|, i requires 0 <= i < |runs| => Last(runs[i].trajectory).baseline),
              seq(|runs|, i requires 0 <= i < |runs| => Timeseries(runs[i].trajectory)),
              seq(|runs|, i requires 0 <= i < |runs| => runs[i].sequenceIndex))
  }

  method ExtractSimulationData(runs: seq<Run>) returns (e: Extracted)
    requires AllWellFormed(runs)
    ensures e == Extract(runs)
  {
    var finals, baselines, all, indices := [], [], [], [];
    for i := 0 to |runs|
      invariant finals == Extract(runs).finalValues[..i]
      invariant baselines == Extract(runs).baselines[..i]
      invariant all == Extract(runs).timeseries[..i]
      invariant indices == Extract(runs).sequenceIndices[..i]
    {
      var t := runs[i].trajectory;
      var n := |t.monthIndex|;
      finals := finals + [t.sp500[n - 1] + t.nasdaq100[n - 1] + t.tbill3m[n - 1]
                          + t.hysa[n - 1] + t.emergency[n - 1]];
      baselines := baselines + [t.baseline[n - 1]];
      indices := indices + [runs[i].sequenceIndex];
      var series := [];
      for j := 0 to n
        invariant series == Timeseries(t)[..j]
      {
        series := series + [t.sp500[j] + t.nasdaq100[j] + t.tbill3m[j] + t.hysa[j] + t.emergency[j]];
      }
      assert series == Timeseries(t);
      all := all + [series];
    }
    e := Extracted(finals, baselines, all, indices);
  }

  /**
   * For a run of the engine: its timeseries has the 181 portfolio totals of
   * months 0..180, the last of which is its final value, and its first is the
   * baseline's starting value when the mix sums to 1.
   */
  lemma ExtractedFromRun(t: Trajectory, cfg: Config, rets: seq<Returns>)
    requires |rets| == Months && Follows(t, cfg, rets)
    ensures |Timeseries(t)| == Months + 1
    ensures forall k :: 0 <= k <= Months ==> Timeseries(t)[k] == PortfolioTotal(StateAt(cfg, rets, k).bal)
    ensures FinalValue(t) == Timeseries(t)[Months]
    ensures Last(t).baseline == StateAt(cfg, rets, Months).bal.baseline
    ensures MixSum(cfg.mix) == 1.0 ==> Timeseries(t)[0] == t.baseline[0]
  {
    forall k | 0 <= k <= Months
      ensures Timeseries(t)[k] == PortfolioTotal(StateAt(cfg, rets, k).bal)
    {
      assert At(t, k) == StateAt(cfg, rets, k).bal;
    }
    assert At(t, Months) == StateAt(cfg, rets, Months).bal;
    if MixSum(cfg.mix) == 1.0 {
      InitialPortfolioEqualsBaseline(cfg, rets);
      assert At(t, 0) == StateAt(cfg, rets, 0).bal;
    }
  }

  // ---------------------------------------------------------------------------
  // calculate_milestone_statistics
  // ---------------------------------------------------------------------------

  /** The balances at month m of every run that has recorded more than m months, in run order. */
  function MilestonePoints(runs: seq<Run>, m: nat): seq<Balances>
    requires AllWellFormed(runs)
  {
    if runs == [] then []
    else
      var t := runs[|runs| - 1].trajectory;
      MilestonePoints(runs[..|runs| - 1], m) + (if Length(t) > m then [At(t, m)] else [])
  }

  /** The statistics of one milestone year. */
  datatype MilestoneStats = MilestoneStats(p25: real, p50: real, p75: real, avgBaseline: real,
                                           beatBaselinePct: real, medianGain: real)

  function Totals(ps: seq<Balances>): seq<real>
  {
    seq(|ps|, i requires 0 <= i < |ps| => PortfolioTotal(ps[i]))
  }

  function Baselines(ps: seq<Balances>): seq<real>
  {
    seq(|ps|, i requires 0 <= i < |ps| => ps[i].baseline)
  }

  /**
   * The statistics of the points; `None` when no run reaches the milestone,
   * where the source's percentile raises on the empty array.
   */
  function MilestoneOf(ps: seq<Balances>, percentile: (seq<real>, real) -> real): Option<MilestoneStats>
  {
    if ps == [] then None
    else
      var values, bases := Totals(ps), Baselines(ps);
      var p50 := percentile(values, 50.0);
      Some(MilestoneStats(percentile(values, 25.0), p50, percentile(values, 75.0),
                          Mean(bases).value, BeatPct(values, bases).value, p50 - Mean(bases).value))
  }

  method CalculateMilestoneStatistics(runs: seq<Run>, year: nat, percentile: (seq<real>, real) -> real)
    returns (r: Option<MilestoneStats>)
    requires AllWellFormed(runs)
    ensures r == MilestoneOf(MilestonePoints(runs, 12 * year), percentile)
  {
    var monthIndex := year * 12;
    var values, bases := [], [];
    ghost var points := [];
    for i := 0 to |runs|
      invariant points == MilestonePoints(runs[..i], monthIndex)
      invariant values == Totals(points) && bases == Baselines(points)
    {
      assert runs[..i + 1][..i] == runs[..i];
      var t := runs[i].trajectory;
      if |t.monthIndex| > monthIndex {
        var total := t.sp500[monthIndex] + t.nasdaq100[monthIndex] + t.tbill3m[monthIndex]
                     + t.hysa[monthIndex] + t.emergency[monthIndex];
        values := values + [total];
        bases := bases + [t.baseline[monthIndex]];
        points := points + [At(t, monthIndex)];
      }
    }
    assert runs[..|runs|] == runs;
    if values == [] {
      r := None;
    } else {
      var p50 := percentile(values, 50.0);
      var avg := Sum(bases) / |bases| as real;
      var beat := BeatCount(values, bases) as real / |values| as real * 100.0;
      r := Some(MilestoneStats(percentile(values, 25.0), p50, percentile(values, 75.0), avg, beat, p50 - avg));
    }
  }

  /**
   * Only runs with more than m months count: at most all of them, all of them
   * when every run is that long, and none when no run is.
   */
  lemma {:induction false} MilestoneCount(runs: seq<Run>, m: nat)
    requires AllWellFormed(runs)
    ensures |MilestonePoints(runs, m)| <= |runs|
    ensures (forall i :: 0 <= i < |runs| ==> Length(runs[i].trajectory) > m)
            ==> |MilestonePoints(runs, m)| == |runs|
    ensures (forall i :: 0 <= i < |runs| ==> Length(runs[i].trajectory) <= m)
            ==> MilestonePoints(runs, m) == []
  {
    if runs != [] {
      var init := runs[..|runs| - 1];
      assert forall i :: 0 <= i < |init| ==> init[i] == runs[i];
      MilestoneCount(init, m);
    }
  }

  /** Each point is the month-m balances of some run that recorded more than m months. */
  lemma {:induction false} MilestonePointsFromRuns(runs: seq<Run>, m: nat)
    requires AllWellFormed(runs)
    ensures forall p :: p in MilestonePoints(runs, m) ==>
              exists i :: 0 <= i < |runs| && Length(runs[i].trajectory) > m && p == At(runs[i].trajectory, m)
  {
    if runs != [] {
      var init := runs[..|runs| - 1];
      assert forall i :: 0 <= i < |init| ==> init[i] == runs[i];
      MilestonePointsFromRuns(init, m);
    }
  }

  /** At a milestone reached by some run, the beat percentage lies in [0, 100]. */
  lemma MilestoneBeatRange(runs: seq<Run>, m: nat, percentile: (seq<real>, real) -> real)
    requires AllWellFormed(runs) && MilestonePoints(runs, m) != []
    ensures MilestoneOf(MilestonePoints(runs, m), percentile).Some?
    ensures 0.0 <= MilestoneOf(MilestonePoints(runs, m), percentile).value.beatBaselinePct <= 100.0
  {
    var ps := MilestonePoints(runs, m);
    BeatPctRange(Totals(ps), Baselines(ps));
  }

  /**
   * The average baseline of a milestone lies within any bounds that hold for the
   * month-m baseline of every run reaching month m.
   */
  lemma MilestoneBaselineWithin(runs: seq<Run>, m: nat, percentile: (seq<real>, real) -> real, lo: real, hi: real)
    requires AllWellFormed(runs) && MilestonePoints(runs, m) != []
    requires forall i :: 0 <= i < |runs| && Length(runs[i].trajectory) > m ==>
               lo <= At(runs[i].trajectory, m).baseline <= hi
    ensures MilestoneOf(MilestonePoints(runs, m), percentile).Some?
    ensures lo <= MilestoneOf(MilestonePoints(runs, m), percentile).value.avgBaseline <= hi
  {
    var ps := MilestonePoints(runs, m);
    MilestonePointsFromRuns(runs, m);
    forall k | 0 <= k < |ps|
      ensures lo <= Baselines(ps)[k] <= hi
    {
      assert ps[k] in ps;
    }
    MeanWithin(Baselines(ps), lo, hi);
  }

  /** For full-length runs the milestone keeps every run for years 0..15 and none past year 15. */
  lemma FullRunsMilestone(runs: seq<Run>, year: nat)
    requires AllWellFormed(runs)
    requires forall i :: 0 <= i < |runs| ==> Length(runs[i].trajectory) == Months + 1
    ensures year <= Years ==> |MilestonePoints(runs, 12 * year)| == |runs|
    ensures year > Years ==> MilestonePoints(runs, 12 * year) == []
  {
    MilestoneCount(runs, 12 * year);
  }

  // ---------------------------------------------------------------------------
  // calculate_fund_returns
  // ---------------------------------------------------------------------------

  /** The five funds whose annualised returns are reported. */
  datatype Fund = Invested(asset: Asset) | EmergencyFund

  /** The balance of one fund. */
  function Holding(b: Balances, f: Fund): real
  {
    match f
    case Invested(SP500) => b.sp500
    case Invested(NASDAQ) => b.nasdaq
    case Invested(TBill) => b.tbill
    case Invested(HYSA) => b.hysa
    case EmergencyFund => b.emergency
  }

  /**
   * What the source takes as put into a fund: its starting balance plus, for an
   * invested asset, the run's total scheduled contribution times its target share.
   */
  function InvestedIn(t: Trajectory, c: int -> real, mix: Mix, f: Fund): real
    requires WellFormed(t)
  {
    match f
    case Invested(a) => Holding(At(t, 0), f) + TotalContribution(c, Length(t) - 1) * mix.Get(a)
    case EmergencyFund => Holding(At(t, 0), f)
  }

  /** (ratio^(1/15) - 1) * 100 for ratio = final / invested, with the fifteenth root a parameter. */
  function Annualized(ratio: real, root15: real -> real): real
  {
    (root15(ratio) - 1.0) * 100.0
  }

  /** A run's return for one fund, or `None` when the guard `invested > 0` skips it. */
  function FundEntry(t: Trajectory, c: int -> real, mix: Mix, root15: real -> real, f: Fund): Option<real>
    requires WellFormed(t)
  {
    var invested := InvestedIn(t, c, mix, f);
    if invested > 0.0 then Some(Annualized(Holding(Last(t), f) / invested, root15)) else None
  }

  /** What one run adds to a fund's list: its entry, unless the guard skipped it. */
  function Reported(t: Trajectory, c: int -> real, mix: Mix, root15: real -> real, f: Fund): seq<real>
    requires WellFormed(t)
  {
    var e := FundEntry(t, c, mix, root15, f);
    if e.Some? then [e.value] else []
  }

  /** The reported returns of one fund: the entries of the runs not skipped, in run order. */
  function FundList(runs: seq<Run>, c: int -> real, mix: Mix, root15: real -> real, f: Fund): seq<real>
    requires AllWellFormed(runs)
  {
    if runs == [] then []
    else FundList(runs[..|runs| - 1], c, mix, root15, f) + Reported(runs[|runs| - 1].trajectory, c, mix, root15, f)
  }

  lemma FundListStep(runs: seq<Run>, i: nat, c: int -> real, mix: Mix, root15: real -> real, f: Fund)
    requires AllWellFormed(runs) && i < |runs|
    ensures FundList(runs[..i + 1], c, mix, root15, f)
            == FundList(runs[..i], c, mix, root15, f) + Reported(runs[i].trajectory, c, mix, root15, f)
  {
    assert runs[..i + 1][..i] == runs[..i];
  }

  datatype FundReturns = FundReturns(sp500: seq<real>, nasdaq100: seq<real>, tbill3m: seq<real>,
                                     hysa: seq<real>, emergency: seq<real>)

  /** The run's scheduled contributions over months 0 .. n - 1, summed month by month. */
  method SumContributions(c: int -> real, n: nat) returns (total: real)
    ensures total == TotalContribution(c, n)
  {
    total := 0.0;
    for month := 0 to n
      invariant total == TotalContribution(c, month)
    {
      total := total + c(month);
    }
  }

  /**
   * One of the five guarded blocks: the fund's final balance over its invested
   * amount (`total` being the run's summed contributions), appended to `acc`
   * when the invested amount is positive.
   */
  method AppendFundReturn(acc: seq<real>, t: Trajectory, c: int -> real, mix: Mix, root15: real -> real,
                          f: Fund, total: real)
    returns (r: seq<real>)
    requires WellFormed(t) && total == TotalContribution(c, Length(t) - 1)
    ensures r == acc + Reported(t, c, mix, root15, f)
  {
    var n := |t.monthIndex| - 1;
    var final, invested;
    match f {
      case Invested(SP500) => final, invested := t.sp500[n], t.sp500[0] + total * mix.sp500;
      case Invested(NASDAQ) => final, invested := t.nasdaq100[n], t.nasdaq100[0] + total * mix.nasdaq;
      case Invested(TBill) => final, invested := t.tbill3m[n], t.tbill3m[0] + total * mix.tbill;
      case Invested(HYSA) => final, invested := t.hysa[n], t.hysa[0] + total * mix.hysa;
      case EmergencyFund => final, invested := t.emergency[n], t.emergency[0];
    }
    assert final == Holding(Last(t), f) && invested == InvestedIn(t, c, mix, f);
    r := acc;
    if invested > 0.0 {
      r := r + [(root15(final / invested) - 1.0) * 100.0];
    }
  }

  /** The five guarded returns of one run, each appended to its fund's list. */
  method AddRun(acc: FundReturns, t: Trajectory, c: int -> real, mix: Mix, root15: real -> real)
    returns (r: FundReturns)
    requires WellFormed(t)
    ensures r.sp500 == acc.sp500 + Reported(t, c, mix, root15, Invested(SP500))
    ensures r.nasdaq100 == acc.nasdaq100 + Reported(t, c, mix, root15, Invested(NASDAQ))
    ensures r.tbill3m == acc.tbill3m + Reported(t, c, mix, root15, Invested(TBill))
    ensures r.hysa == acc.hysa + Reported(t, c, mix, root15, Invested(HYSA))
    ensures r.emergency == acc.emergency + Reported(t, c, mix, root15, EmergencyFund)
  {
    var total := SumContributions(c, |t.monthIndex| - 1);
    var sp := AppendFundReturn(acc.sp500, t, c, mix, root15, Invested(SP500), total);
    var nq := AppendFundReturn(acc.nasdaq100, t, c, mix, root15, Invested(NASDAQ), total);
    var tb := AppendFundReturn(acc.tbill3m, t, c, mix, root15, Invested(TBill), total);
    var hy := AppendFundReturn(acc.hysa, t, c, mix, root15, Invested(HYSA), total);
    var em := AppendFundReturn(acc.emergency, t, c, mix, root15, EmergencyFund, total);
    r := FundReturns(sp, nq, tb, hy, em);
  }

  method CalculateFundReturns(runs: seq<Run>, c: int -> real, mix: Mix, root15: real -> real)
    returns (fr: FundReturns)
    requires AllWellFormed(runs)
    ensures fr.sp500 == FundList(runs, c, mix, root15, Invested(SP500))
    ensures fr.nasdaq100 == FundList(runs, c, mix, root15, Invested(NASDAQ))
    ensures fr.tbill3m == FundList(runs, c, mix, root15, Invested(TBill))
    ensures fr.hysa == FundList(runs, c, mix, root15, Invested(HYSA))
    ensures fr.emergency == FundList(runs, c, mix, root15, EmergencyFund)
  {
    fr := FundReturns([], [], [], [], []);
    for i := 0 to |runs|
      invariant fr.sp500 == FundList(runs[..i], c, mix, root15, Invested(SP500))
      invariant fr.nasdaq100 == FundList(runs[..i], c, mix, root15, Invested(NASDAQ))
      invariant fr.tbill3m == FundList(runs[..i], c, mix, root15, Invested(TBill))
      invariant fr.hysa == FundList(runs[..i], c, mix, root15, Invested(HYSA))
      invariant fr.emergency == FundList(runs[..i], c, mix, root15, EmergencyFund)
    {
      fr := AddRun(fr, runs[i].trajectory, c, mix, root15);
      FundListStep(runs, i, c, mix, root15, Invested(SP500));
      FundListStep(runs, i, c, mix, root15, Invested(NASDAQ));
      FundListStep(runs, i, c, mix, root15, Invested(TBill));
      FundListStep(runs, i, c, mix, root15, Invested(HYSA));
      FundListStep(runs, i, c, mix, root15, EmergencyFund);
    }
    assert runs[..|runs|] == runs;
  }

  /**
   * A fund reports one return per run whose invested amount is positive: at most
   * one per run, one for every run when all are positive, none when none is.
   */
  lemma {:induction false} FundListCount(runs: seq<Run>, c: int -> real, mix: Mix, root15: real -> real, f: Fund)
    requires AllWellFormed(runs)
    ensures |FundList(runs, c, mix, root15, f)| <= |runs|
    ensures (forall i :: 0 <= i < |runs| ==> InvestedIn(runs[i].trajectory, c, mix, f) > 0.0)
            ==> |FundList(runs, c, mix, root15, f)| == |runs|
    ensures (forall i :: 0 <= i < |runs| ==> InvestedIn(runs[i].trajectory, c, mix, f) <= 0.0)
            ==> FundList(runs, c, mix, root15, f) == []
  {
    if runs != [] {
      var init := runs[..|runs| - 1];
      assert forall i :: 0 <= i < |init| ==> init[i] == runs[i];
      FundListCount(init, c, mix, root15, f);
      ReportedLength(runs[|runs| - 1].trajectory, c, mix, root15, f);
    }
  }

  lemma ReportedLength(t: Trajectory, c: int -> real, mix: Mix, root15: real -> real, f: Fund)
    requires WellFormed(t)
    ensures |Reported(t, c, mix, root15, f)| == if InvestedIn(t, c, mix, f) > 0.0 then 1 else 0
  {
  }

  /**
   * For an engine run without rebalancing, the amount the source takes as
   * invested in an asset is what the engine actually put in: the starting
   * balance plus every month's contribution times that month's share.
   */
  lemma {:induction false} InvestedMatchesEngine(t: Trajectory, cfg: Config, rets: seq<Returns>, a: Asset)
    requires |rets| == Months && Follows(t, cfg, rets) && !cfg.rebalance
    ensures InvestedIn(t, cfg.contribution, cfg.mix, Invested(a))
            == Holding(StateAt(cfg, rets, 0).bal, Invested(a)) + ContributedTo(cfg, rets, a, Months)
  {
    assert At(t, 0) == StateAt(cfg, rets, 0).bal;
    ContributedToWithoutRebalancing(cfg, rets, a, Months);
  }

  /**
   * The emergency fund's reported return is the same for every engine run with a
   * positive emergency fund: its final-over-start ratio is (1 + h)^180 whatever
   * the market did.
   */
  lemma EmergencyReturnOfRun(t: Trajectory, cfg: Config, rets: seq<Returns>, root15: real -> real, mix: Mix,
                             c: int -> real)
    requires |rets| == Months && Follows(t, cfg, rets) && cfg.emergencyStart > 0.0
    ensures FundEntry(t, c, mix, root15, EmergencyFund) == Some(Annualized(Pow(1.0 + HysaRate(cfg), Months), root15))
  {
    assert At(t, 0) == StateAt(cfg, rets, 0).bal;
    assert Last(t) == At(t, Months) == StateAt(cfg, rets, Months).bal;
    EmergencyClosedForm(cfg, rets, Months);
    DivideOut(Pow(1.0 + HysaRate(cfg), Months), cfg.emergencyStart);
    var g := Pow(1.0 + HysaRate(cfg), Months);
    assert InvestedIn(t, c, mix, EmergencyFund) == cfg.emergencyStart;
    assert Holding(Last(t), EmergencyFund) == cfg.emergencyStart * g;
    assert Holding(Last(t), EmergencyFund) / cfg.emergencyStart == g;
    assert FundEntry(t, c, mix, root15, EmergencyFund) == Some(Annualized(Holding(Last(t), EmergencyFund) / cfg.emergencyStart, root15));
    assert FundEntry(t, c, mix, root15, EmergencyFund) == Some(Annualized(g, root15));
  }

  lemma DivideOut(g: real, s: real)
    requires s != 0.0
    ensures s * g / s == g
  {
  }
}
