/**
 * The pure logic embedded in the dashboard script: validating the enabled
 * portfolios before a simulation, turning percentages into a mix, the
 * beat-the-baseline percentage of the summary, the monthly allocation shares
 * and the ranking of historical sequences by median final value. The median is
 * a parameter.
 */
module App {
  import opened Wrappers
  import opened Portfolio
  import opened Sequences
  import opened Sorting
  import opened Statistics

  // ---------------------------------------------------------------------------
  // Portfolio validation and the mix
  // ---------------------------------------------------------------------------

  /** One portfolio's sidebar settings; the four allocations are whole percentages. */
  datatype Settings = Settings(name: string, enabled: bool, sp500: int, nasdaq: int, tbill: int, hysa: int,
                               rebalance: bool, threshold: int)

  function AllocationTotal(p: Settings): int
  {
    p.sp500 + p.nasdaq + p.tbill + p.hysa
  }

  /** The four portfolio slots are numbered 1..4. */
  predicate HasSlots(ps: map<int, Settings>)
  {
    forall i :: 1 <= i <= 4 ==> i in ps
  }

  /** The ids among slots 1..n whose portfolio is enabled, in increasing order. */
  function EnabledUpTo(ps: map<int, Settings>, n: nat): seq<int>
    requires HasSlots(ps) && n <= 4
  {
    if n == 0 then [] else EnabledUpTo(ps, n - 1) + (if ps[n].enabled then [n] else [])
  }

  function Enabled(ps: map<int, Settings>): seq<int>
    requires HasSlots(ps)
  {
    EnabledUpTo(ps, 4)
  }

  /** The enabled ids are exactly the enabled slots, in increasing order. */
  lemma {:induction false} EnabledMembers(ps: map<int, Settings>, n: nat)
    requires HasSlots(ps) && n <= 4
    ensures forall k :: 0 <= k < |EnabledUpTo(ps, n)| ==>
              1 <= EnabledUpTo(ps, n)[k] <= n && ps[EnabledUpTo(ps, n)[k]].enabled
    ensures forall i :: 1 <= i <= n && ps[i].enabled ==> i in EnabledUpTo(ps, n)
    ensures forall j, k :: 0 <= j < k < |EnabledUpTo(ps, n)| ==> EnabledUpTo(ps, n)[j] < EnabledUpTo(ps, n)[k]
  {
    if n > 0 {
      EnabledMembers(ps, n - 1);
      var prev := EnabledUpTo(ps, n - 1);
      var e := EnabledUpTo(ps, n);
      assert forall k :: 0 <= k < |prev| ==> e[k] == prev[k];
    }
  }

  /** The comprehension over the four slots. */
  method EnabledPortfolios(ps: map<int, Settings>) returns (enabled: seq<int>)
    requires HasSlots(ps)
    ensures enabled == Enabled(ps)
  {
    enabled := [];
    for i := 1 to 5
      invariant enabled == EnabledUpTo(ps, i - 1)
    {
      if ps[i].enabled {
        enabled := enabled + [i];
      }
    }
  }

  /** The portfolios among `ids` whose allocations do not total 100, in order. */
  function Offending(ps: map<int, Settings>, ids: seq<int>): seq<int>
    requires forall k :: 0 <= k < |ids| ==> ids[k] in ps
  {
    if ids == [] then []
    else Offending(ps, ids[..|ids| - 1])
         + (if AllocationTotal(ps[ids[|ids| - 1]]) != 100 then [ids[|ids| - 1]] else [])
  }

  /** An id is reported iff it is among `ids` and its allocations do not total 100. */
  lemma {:induction false} OffendingMembers(ps: map<int, Settings>, ids: seq<int>)
    requires forall k :: 0 <= k < |ids| ==> ids[k] in ps
    ensures forall i :: i in Offending(ps, ids) <==> i in ids && AllocationTotal(ps[i]) != 100
  {
    if ids != [] {
      var init := ids[..|ids| - 1];
      OffendingMembers(ps, init);
      assert ids == init + [ids[|ids| - 1]];
    }
  }

  /** The outcome of the run button: an error, one error per offending portfolio, or the go-ahead. */
  datatype Validation = NoneEnabled | Invalid(offending: seq<int>) | Valid(enabled: seq<int>)

  function ValidationOf(ps: map<int, Settings>): Validation
    requires HasSlots(ps)
  {
    EnabledMembers(ps, 4);
    var enabled := Enabled(ps);
    if enabled == [] then NoneEnabled
    else if Offending(ps, enabled) != [] then Invalid(Offending(ps, enabled))
    else Valid(enabled)
  }

  /** The check of each enabled portfolio, reporting every one whose total is not 100. */
  method CheckTotals(ps: map<int, Settings>, enabled: seq<int>) returns (allValid: bool, errors: seq<int>)
    requires forall k :: 0 <= k < |enabled| ==> enabled[k] in ps
    ensures errors == Offending(ps, enabled)
    ensures allValid <==> errors == []
  {
    allValid := true;
    errors := [];
    for k := 0 to |enabled|
      invariant errors == Offending(ps, enabled[..k])
      invariant allValid <==> errors == []
    {
      assert enabled[..k + 1][..k] == enabled[..k];
      var port := ps[enabled[k]];
      var total := port.sp500 + port.nasdaq + port.tbill + port.hysa;
      if total != 100 {
        errors := errors + [enabled[k]];
        allValid := false;
      }
    }
    assert enabled[..|enabled|] == enabled;
  }

  /** The run button's validation: no portfolio enabled, some enabled one invalid, or all valid. */
  method ValidatePortfolios(ps: map<int, Settings>) returns (v: Validation)
    requires HasSlots(ps)
    ensures v == ValidationOf(ps)
  {
    var enabled := EnabledPortfolios(ps);
    EnabledMembers(ps, 4);
    if enabled == [] {
      v := NoneEnabled;
    } else {
      var allValid, errors := CheckTotals(ps, enabled);
      v := if allValid then Valid(enabled) else Invalid(errors);
    }
  }

  /**
   * The simulation runs iff some portfolio is enabled and every enabled one totals
   * exactly 100; otherwise the errors name exactly the enabled portfolios that do not.
   */
  lemma ValidationSpec(ps: map<int, Settings>)
    requires HasSlots(ps)
    ensures ValidationOf(ps).Valid?
            <==> (exists i :: 1 <= i <= 4 && ps[i].enabled)
                 && forall i :: 1 <= i <= 4 && ps[i].enabled ==> AllocationTotal(ps[i]) == 100
    ensures ValidationOf(ps).NoneEnabled? <==> forall i :: 1 <= i <= 4 ==> !ps[i].enabled
    ensures ValidationOf(ps).Invalid? ==>
              forall i :: i in ValidationOf(ps).offending
                <==> 1 <= i <= 4 && ps[i].enabled && AllocationTotal(ps[i]) != 100
  {
    EnabledMembers(ps, 4);
    var e := Enabled(ps);
    OffendingMembers(ps, e);
    var off := Offending(ps, e);
    if e != [] {
      assert 1 <= e[0] <= 4 && ps[e[0]].enabled;
    }
    if off != [] {
      assert off[0] in off;
    }
  }

  /** `investment_mix`: each percentage divided by 100. */
  function MixOf(p: Settings): Mix
  {
    Mix(p.sp500 as real / 100.0, p.nasdaq as real / 100.0, p.tbill as real / 100.0, p.hysa as real / 100.0)
  }

  /** The mix sums to 1 exactly when the percentages total 100. */
  lemma MixOfSumsToOne(p: Settings)
    ensures MixSum(MixOf(p)) == 1.0 <==> AllocationTotal(p) == 100
  {
    assert MixSum(MixOf(p)) == AllocationTotal(p) as real / 100.0;
  }

  /** Every portfolio a valid run simulates has a mix summing to 1. */
  lemma ValidMixes(ps: map<int, Settings>)
    requires HasSlots(ps) && ValidationOf(ps).Valid?
    ensures forall i :: i in ValidationOf(ps).enabled ==> 1 <= i <= 4 && MixSum(MixOf(ps[i])) == 1.0
  {
    ValidationSpec(ps);
    EnabledMembers(ps, 4);
    forall i | i in ValidationOf(ps).enabled
      ensures 1 <= i <= 4 && MixSum(MixOf(ps[i])) == 1.0
    {
      MixOfSumsToOne(ps[i]);
    }
  }

  // ---------------------------------------------------------------------------
  // Beat-the-baseline percentage of the summary
  // ---------------------------------------------------------------------------

  /**
   * The summary's share of runs ending above their baseline, in percent, over
   * the extracted data lies in [0, 100], and is 100 exactly when every run ends
   * above its own baseline.
   */
  lemma SummaryBeatPct(runs: seq<Run>)
    requires AllWellFormed(runs) && runs != []
    ensures var e := Extract(runs);
      && BeatPct(e.finalValues, e.baselines).Some?
      && 0.0 <= BeatPct(e.finalValues, e.baselines).value <= 100.0
      && (BeatPct(e.finalValues, e.baselines).value == 100.0
          <==> forall i :: 0 <= i < |runs| ==> FinalValue(runs[i].trajectory) > Last(runs[i].trajectory).baseline)
  {
    var e := Extract(runs);
    BeatPctRange(e.finalValues, e.baselines);
    assert forall i :: 0 <= i < |runs| ==>
             e.finalValues[i] == FinalValue(runs[i].trajectory) && e.baselines[i] == Last(runs[i].trajectory).baseline;
  }

  // ---------------------------------------------------------------------------
  // Allocation shares
  // ---------------------------------------------------------------------------

  /** The four assets' percentages of the four-asset total in one month. */
  datatype Shares = Shares(sp500: real, nasdaq: real, tbill: real, hysa: real)

  function SharesOf(b: Balances): Shares
    requires FourAssetTotal(b) > 0.0
  {
    var total := FourAssetTotal(b);
    Shares(b.sp500 / total * 100.0, b.nasdaq / total * 100.0, b.tbill / total * 100.0, b.hysa / total * 100.0)
  }

  lemma QuarterSums(a: real, b: real, c: real, d: real, t: real)
    requires t > 0.0 && a + b + c + d == t
    ensures a / t * 100.0 + b / t * 100.0 + c / t * 100.0 + d / t * 100.0 == 100.0
  {
    var x, y, z, w := a / t, b / t, c / t, d / t;
    assert x * t == a && y * t == b && z * t == c && w * t == d;
    assert (x + y + z + w) * t == x * t + y * t + z * t + w * t;
    assert (x + y + z + w - 1.0) * t == 0.0;
    assert x + y + z + w == 1.0;
  }

  /** The recorded shares sum to 100, and lie in [0, 100] when no balance is negative. */
  lemma SharesSumTo100(b: Balances)
    requires FourAssetTotal(b) > 0.0
    ensures var s := SharesOf(b); s.sp500 + s.nasdaq + s.tbill + s.hysa == 100.0
    ensures b.sp500 >= 0.0 && b.nasdaq >= 0.0 && b.tbill >= 0.0 && b.hysa >= 0.0 ==>
              var s := SharesOf(b);
              && 0.0 <= s.sp500 <= 100.0 && 0.0 <= s.nasdaq <= 100.0
              && 0.0 <= s.tbill <= 100.0 && 0.0 <= s.hysa <= 100.0
  {
    var total := FourAssetTotal(b);
    QuarterSums(b.sp500, b.nasdaq, b.tbill, b.hysa, total);
    if b.sp500 >= 0.0 && b.nasdaq >= 0.0 && b.tbill >= 0.0 && b.hysa >= 0.0 {
      Percentage(b.sp500, total);
      Percentage(b.nasdaq, total);
      Percentage(b.tbill, total);
      Percentage(b.hysa, total);
    }
  }

  /** A run contributes shares at `month` iff it recorded that month and its four-asset total is positive. */
  predicate Records(t: Trajectory, month: nat)
    requires WellFormed(t)
  {
    month < Length(t) && FourAssetTotal(At(t, month)) > 0.0
  }

  /** The shares of every run that records `month`, in run order. */
  function Recorded(runs: seq<Run>, month: nat): seq<Shares>
    requires AllWellFormed(runs)
  {
    if runs == [] then []
    else
      var t := runs[|runs| - 1].trajectory;
      Recorded(runs[..|runs| - 1], month) + (if Records(t, month) then [SharesOf(At(t, month))] else [])
  }

  /** The inner loop over the runs for one month. */
  method MonthShares(runs: seq<Run>, month: nat) returns (shares: seq<Shares>)
    requires AllWellFormed(runs)
    ensures shares == Recorded(runs, month)
  {
    shares := [];
    for i := 0 to |runs|
      invariant shares == Recorded(runs[..i], month)
    {
      assert runs[..i + 1][..i] == runs[..i];
      var t := runs[i].trajectory;
      if month < |t.monthIndex| {
        var total := t.sp500[month] + t.nasdaq100[month] + t.tbill3m[month] + t.hysa[month];
        if total > 0.0 {
          shares := shares + [Shares(t.sp500[month] / total * 100.0, t.nasdaq100[month] / total * 100.0,
                                     t.tbill3m[month] / total * 100.0, t.hysa[month] / total * 100.0)];
        }
      }
    }
    assert runs[..|runs|] == runs;
  }

  /** Nothing is recorded at `month` iff no run records it; each recorded entry sums to 100. */
  lemma {:induction false} RecordedSpec(runs: seq<Run>, month: nat)
    requires AllWellFormed(runs)
    ensures Recorded(runs, month) == [] <==> forall i :: 0 <= i < |runs| ==> !Records(runs[i].trajectory, month)
    ensures forall k :: 0 <= k < |Recorded(runs, month)| ==>
              Recorded(runs, month)[k].sp500 + Recorded(runs, month)[k].nasdaq
              + Recorded(runs, month)[k].tbill + Recorded(runs, month)[k].hysa == 100.0
  {
    if runs != [] {
      var init := runs[..|runs| - 1];
      var t := runs[|runs| - 1].trajectory;
      assert forall i :: 0 <= i < |init| ==> init[i] == runs[i];
      RecordedSpec(init, month);
      if Records(t, month) {
        SharesSumTo100(At(t, month));
      }
    }
  }

  function Column(shares: seq<Shares>, a: Asset): seq<real>
  {
    seq(|shares|, i requires 0 <= i < |shares| =>
      match a
      case SP500 => shares[i].sp500
      case NASDAQ => shares[i].nasdaq
      case TBill => shares[i].tbill
      case HYSA => shares[i].hysa)
  }

  /** A month's median shares, or `None` (a gap in the chart) when no run recorded it. */
  function MedianShares(shares: seq<Shares>, median: seq<real> -> real): Option<Shares>
  {
    if shares == [] then None
    else Some(Shares(median(Column(shares, SP500)), median(Column(shares, NASDAQ)),
                     median(Column(shares, TBill)), median(Column(shares, HYSA))))
  }

  /** The allocation chart's data: one entry per month 0..180. */
  method AllocationOverTime(runs: seq<Run>, median: seq<real> -> real) returns (allocs: seq<Option<Shares>>)
    requires AllWellFormed(runs)
    ensures |allocs| == Months + 1
    ensures forall m :: 0 <= m <= Months ==> allocs[m] == MedianShares(Recorded(runs, m), median)
  {
    allocs := [];
    for month := 0 to Months + 1
      invariant |allocs| == month
      invariant forall m :: 0 <= m < month ==> allocs[m] == MedianShares(Recorded(runs, m), median)
    {
      var shares := MonthShares(runs, month);
      if shares != [] {
        allocs := allocs + [Some(Shares(median(Column(shares, SP500)), median(Column(shares, NASDAQ)),
                                        median(Column(shares, TBill)), median(Column(shares, HYSA))))];
      } else {
        allocs := allocs + [None];
      }
    }
  }

  /** A month of the chart has a gap exactly when no run records a positive four-asset total there. */
  lemma AllocationGap(runs: seq<Run>, median: seq<real> -> real, month: nat)
    requires AllWellFormed(runs)
    ensures MedianShares(Recorded(runs, month), median).None?
            <==> forall i :: 0 <= i < |runs| ==> !Records(runs[i].trajectory, month)
  {
    RecordedSpec(runs, month);
  }

  // ---------------------------------------------------------------------------
  // Ranking of historical sequences
  // ---------------------------------------------------------------------------

  /** The boolean-mask selection: the entries of the runs of sequence s, in run order. */
  function Select(xs: seq<real>, indices: seq<nat>, s: nat): (r: seq<real>)
    requires |xs| == |indices|
    ensures |r| <= |xs|
  {
    if xs == [] then []
    else Select(xs[..|xs| - 1], indices[..|indices| - 1], s)
         + (if indices[|indices| - 1] == s then [xs[|xs| - 1]] else [])
  }

  /** The selection's size depends only on the indices: it is empty iff no run belongs to s. */
  lemma {:induction false} SelectSize(xs: seq<real>, ys: seq<real>, indices: seq<nat>, s: nat)
    requires |xs| == |indices| == |ys|
    ensures |Select(xs, indices, s)| == |Select(ys, indices, s)|
    ensures Select(xs, indices, s) == [] <==> forall i :: 0 <= i < |indices| ==> indices[i] != s
  {
    if xs != [] {
      var n := |xs| - 1;
      assert forall i :: 0 <= i < n ==> indices[..n][i] == indices[i];
      SelectSize(xs[..n], ys[..n], indices[..n], s);
    }
  }

  /** One row of `sequence_performance`. */
  datatype Performance = Performance(sequence: nat, startYear: int, endYear: int, avgFinal: real,
                                     medianFinal: real, avgBaseline: real, beatBaselinePct: real)

  /** The row of sequence s, or `None` when none of its runs is present. */
  function PerformanceOf(finals: seq<real>, baselines: seq<real>, indices: seq<nat>, w: Window, s: nat,
                         median: seq<real> -> real): Option<Performance>
    requires |finals| == |indices| == |baselines|
  {
    var sf := Select(finals, indices, s);
    var sb := Select(baselines, indices, s);
    SelectSize(finals, baselines, indices, s);
    if sf == [] then None
    else Some(Performance(s, w.startYear, w.endYear, Mean(sf).value, median(sf), Mean(sb).value,
                          BeatPct(sf, sb).value))
  }

  /** A row exists iff the sequence has runs; it is tagged with s and its beat percentage is in [0, 100]. */
  lemma RowSpec(finals: seq<real>, baselines: seq<real>, indices: seq<nat>, w: Window, s: nat,
                median: seq<real> -> real)
    requires |finals| == |indices| == |baselines|
    ensures var row := PerformanceOf(finals, baselines, indices, w, s, median);
      && (row.Some? <==> exists i :: 0 <= i < |indices| && indices[i] == s)
      && (row.Some? ==> row.value.sequence == s && 0.0 <= row.value.beatBaselinePct <= 100.0)
  {
    SelectSize(finals, baselines, indices, s);
    var sf := Select(finals, indices, s);
    if sf != [] {
      BeatPctRange(sf, Select(baselines, indices, s));
    }
  }

  /** The candidate row of every sequence, `None` for a sequence without runs. */
  function Rows(finals: seq<real>, baselines: seq<real>, indices: seq<nat>, windows: seq<Window>,
                median: seq<real> -> real): (rows: seq<Option<Performance>>)
    requires |finals| == |indices| == |baselines|
    ensures |rows| == |windows|
  {
    seq(|windows|, s requires 0 <= s < |windows| => PerformanceOf(finals, baselines, indices, windows[s], s, median))
  }

  /** The rows present among the first n candidates, in order. */
  function Present(rows: seq<Option<Performance>>, n: nat): seq<Performance>
    requires n <= |rows|
  {
    if n == 0 then [] else Present(rows, n - 1) + (if rows[n - 1].Some? then [rows[n - 1].value] else [])
  }

  /** `sequence_performance`: the rows of the sequences that have runs, in sequence order. */
  function PerformanceTable(finals: seq<real>, baselines: seq<real>, indices: seq<nat>, windows: seq<Window>,
                            median: seq<real> -> real): seq<Performance>
    requires |finals| == |indices| == |baselines|
  {
    Present(Rows(finals, baselines, indices, windows, median), |windows|)
  }

  /** One sequence's row, built when it has runs. */
  method SequenceRow(finals: seq<real>, baselines: seq<real>, indices: seq<nat>, w: Window, s: nat,
                     median: seq<real> -> real)
    returns (row: Option<Performance>)
    requires |finals| == |indices| == |baselines|
    ensures row == PerformanceOf(finals, baselines, indices, w, s, median)
  {
    var seqFinals := Select(finals, indices, s);
    var seqBaselines := Select(baselines, indices, s);
    SelectSize(finals, baselines, indices, s);
    if |seqFinals| > 0 {
      var avgFinal := Sum(seqFinals) / |seqFinals| as real;
      var avgBaseline := Sum(seqBaselines) / |seqBaselines| as real;
      var beat := BeatCount(seqFinals, seqBaselines) as real / |seqFinals| as real * 100.0;
      row := Some(Performance(s, w.startYear, w.endYear, avgFinal, median(seqFinals), avgBaseline, beat));
    } else {
      row := None;
    }
  }

  /** The loop filling `sequence_performance`, skipping sequences without runs. */
  method SequencePerformance(finals: seq<real>, baselines: seq<real>, indices: seq<nat>, windows: seq<Window>,
                             median: seq<real> -> real)
    returns (table: seq<Performance>)
    requires |finals| == |indices| == |baselines|
    ensures table == PerformanceTable(finals, baselines, indices, windows, median)
  {
    ghost var rows := Rows(finals, baselines, indices, windows, median);
    table := [];
    for s := 0 to |windows|
      invariant table == Present(rows, s)
    {
      var row := SequenceRow(finals, baselines, indices, windows[s], s, median);
      assert row == rows[s];
      if row.Some? {
        table := table + [row.value];
      }
    }
  }

  /** Each candidate row is tagged with its own sequence number and has a beat percentage in [0, 100]. */
  predicate Tagged(rows: seq<Option<Performance>>)
  {
    forall s :: 0 <= s < |rows| && rows[s].Some? ==>
      rows[s].value.sequence == s && 0.0 <= rows[s].value.beatBaselinePct <= 100.0
  }

  /** Every present row is the candidate of a sequence below n, in increasing sequence order. */
  lemma {:induction false} PresentRows(rows: seq<Option<Performance>>, n: nat)
    requires n <= |rows| && Tagged(rows)
    ensures forall k :: 0 <= k < |Present(rows, n)| ==>
              Present(rows, n)[k].sequence < n && rows[Present(rows, n)[k].sequence] == Some(Present(rows, n)[k])
    ensures forall j, k :: 0 <= j < k < |Present(rows, n)| ==> Present(rows, n)[j].sequence < Present(rows, n)[k].sequence
  {
    if n > 0 {
      PresentRows(rows, n - 1);
      var prev := Present(rows, n - 1);
      assert forall k :: 0 <= k < |prev| ==> Present(rows, n)[k] == prev[k];
    }
  }

  /** Every candidate below n that is present appears among the rows. */
  lemma {:induction false} PresentComplete(rows: seq<Option<Performance>>, n: nat, s: nat)
    requires n <= |rows| && s < n && rows[s].Some?
    ensures rows[s].value in Present(rows, n)
  {
    if s < n - 1 {
      PresentComplete(rows, n - 1, s);
    }
  }

  lemma RowsTagged(finals: seq<real>, baselines: seq<real>, indices: seq<nat>, windows: seq<Window>,
                   median: seq<real> -> real)
    requires |finals| == |indices| == |baselines|
    ensures Tagged(Rows(finals, baselines, indices, windows, median))
    ensures forall s :: 0 <= s < |windows| ==>
              (Rows(finals, baselines, indices, windows, median)[s].Some? <==> HasRuns(indices, s))
  {
    var rows := Rows(finals, baselines, indices, windows, median);
    forall s | 0 <= s < |windows|
      ensures rows[s].Some? ==> rows[s].value.sequence == s && 0.0 <= rows[s].value.beatBaselinePct <= 100.0
      ensures rows[s].Some? <==> HasRuns(indices, s)
    {
      RowSpec(finals, baselines, indices, windows[s], s, median);
    }
  }

  /** Some run belongs to sequence s. */
  predicate HasRuns(indices: seq<nat>, s: nat)
  {
    exists i :: 0 <= i < |indices| && indices[i] == s
  }

  /**
   * The table has exactly one row per sequence that has runs, in increasing
   * sequence order, and each row's beat percentage lies in [0, 100].
   */
  lemma PerformanceTableSpec(finals: seq<real>, baselines: seq<real>, indices: seq<nat>, windows: seq<Window>,
                             median: seq<real> -> real)
    requires |finals| == |indices| == |baselines|
    ensures var table := PerformanceTable(finals, baselines, indices, windows, median);
      && (forall k :: 0 <= k < |table| ==>
            table[k].sequence < |windows| && HasRuns(indices, table[k].sequence)
            && 0.0 <= table[k].beatBaselinePct <= 100.0)
      && (forall j, k :: 0 <= j < k < |table| ==> table[j].sequence < table[k].sequence)
      && (forall s :: 0 <= s < |windows| && HasRuns(indices, s) ==> exists k :: 0 <= k < |table| && table[k].sequence == s)
  {
    var rows := Rows(finals, baselines, indices, windows, median);
    var table := Present(rows, |windows|);
    RowsTagged(finals, baselines, indices, windows, median);
    PresentRows(rows, |windows|);
    forall s | 0 <= s < |windows| && HasRuns(indices, s)
      ensures exists k :: 0 <= k < |table| && table[k].sequence == s
    {
      PresentComplete(rows, |windows|, s);
      var k :| 0 <= k < |table| && table[k] == rows[s].value;
    }
  }

  /** `reverse=True` on the median: ascending by the negated median. */
  function RankKey(p: Performance): real
  {
    -p.medianFinal
  }

  function Ranked(table: seq<Performance>): seq<Performance>
  {
    SortBy(table, RankKey)
  }

  /** The first three rows of the ranking (all of them when there are fewer). */
  function Top3(ranked: seq<Performance>): seq<Performance>
  {
    if |ranked| <= 3 then ranked else ranked[..3]
  }

  /** The last three rows of the ranking (all of them when there are fewer). */
  function Worst3(ranked: seq<Performance>): seq<Performance>
  {
    if |ranked| <= 3 then ranked else ranked[|ranked| - 3..]
  }

  /**
   * The ranking is a permutation of the table in non-increasing median order, in
   * which rows of equal median keep their table (sequence) order.
   */
  lemma RankedSpec(table: seq<Performance>)
    ensures multiset(Ranked(table)) == multiset(table)
    ensures forall i, j :: 0 <= i < j < |Ranked(table)| ==> Ranked(table)[i].medianFinal >= Ranked(table)[j].medianFinal
    ensures forall v :: WithKey(Ranked(table), RankKey, v) == WithKey(table, RankKey, v)
  {
    SortPermutes(table, RankKey);
    SortSorted(table, RankKey);
    forall v
      ensures WithKey(Ranked(table), RankKey, v) == WithKey(table, RankKey, v)
    {
      SortStable(table, RankKey, v);
    }
  }

  /**
   * "Top 3" are the first min(3, n) rows of the ranking, each with a median at least
   * that of every other row; "worst 3" are the last min(3, n), each at most every
   * row before them.
   */
  lemma TopAndWorst(table: seq<Performance>)
    ensures var ranked := Ranked(table);
      && |Top3(ranked)| == |Worst3(ranked)| == (if |table| < 3 then |table| else 3)
      && (forall i, j :: 0 <= i < |Top3(ranked)| <= j < |ranked| ==>
            Top3(ranked)[i].medianFinal >= ranked[j].medianFinal)
      && (forall i, j :: 0 <= i < |Worst3(ranked)| && 0 <= j < |ranked| - |Worst3(ranked)| ==>
            ranked[j].medianFinal >= Worst3(ranked)[i].medianFinal)
  {
    RankedSpec(table);
    var ranked := Ranked(table);
    var w := Worst3(ranked);
    forall i, j | 0 <= i < |w| && 0 <= j < |ranked| - |w|
      ensures ranked[j].medianFinal >= w[i].medianFinal
    {
      assert w[i] == ranked[|ranked| - |w| + i];
    }
  }
}
