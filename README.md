# Historical-sequence investment simulator — a verified model

This project models, in Dafny, the computational core of a Monte Carlo
dashboard for a 15-year monthly investment plan. The plan splits a starting
amount and a monthly contribution across four assets: S&P 500, NASDAQ-100,
3-month T-bills and a high-yield savings account (HYSA). An emergency fund
and a "baseline" (everything kept in the HYSA) compound beside it. The model
covers these parts:

- **Historical sequences** (`Sequences`): every 15-year window of annual
  returns, with a missing-data marker per asset. A window is simulated only
  when all three series cover it.
- **Return sampling** (`Sampler`): twelve monthly returns per year. Each is the
  monthly equivalent of the yearly return plus a random draw.
- **Simulation engine** (`Engine`, `EngineProperties`, `Simulation`). This
  covers month-by-month growth and contributions, the quarterly threshold
  rebalancing (`Rebalancing`), and the loop over sequences and iterations.
  The engine is proved against a recursive state function `StateAt`.
  Properties of the engine are then proved about that function.
- **Cash flows for IRR** (`Irr`): the portfolio flows, and the baseline flows
  that are reconstructed from the baseline balances. Also how runs that have
  no IRR are filtered out.
- **Aggregation** (`Statistics`): extracting final values and time series,
  milestone statistics, per-fund annualised returns, and beat-the-baseline
  percentages.
- **Dashboard logic** (`Schedule`, `Sorting`, `App`). This covers the
  contribution schedule lookup, the sorted period list, portfolio
  validation, allocation shares over time, and the per-sequence performance
  table with its top-3/worst-3 ranking.

Sorting with a key is Python's stable `sorted`, modelled as insertion
sort (`Sorting`). Its sortedness, permutation and stability are proved.

## Model

| member | source | states |
|---|---|---|
| Sampler.ZeroDraws | financial_simulation_lib.py:390 | the HYSA rate is computed with zero volatility: twelve zero draws |
| Sampler.CalculateMonthlyReturn | financial_simulation_lib.py:301-310 | twelve monthly returns, each the monthly equivalent of the yearly return plus that month's draw |
| Sequences.SetMin | financial_simulation_lib.py:319-323 | the first of the sorted years is a member of the series and no larger than any other year |
| Sequences.SetMax | financial_simulation_lib.py:319-324 | the last of the sorted years is a member and no smaller than any other year |
| Sequences.FirstYear | financial_simulation_lib.py:319-323 | the loop over a year set finds exactly its minimum |
| Sequences.LastYear | financial_simulation_lib.py:319-324 | the loop over a year set finds exactly its maximum |
| Sequences.GetSequences | financial_simulation_lib.py:313-358 | one window per start year from the earliest year up to, but excluding, latest − 14; window k starts at earliest + k, ends 14 years later, strictly before the latest year, and is the window built from the table at that start |
| Sequences.WindowSlices | financial_simulation_lib.py:337-354 | an asset's slice is present exactly when its series covers all 15 years; a complete window is simulatable and holds the table's values year by year |
| Sequences.CompleteSequences | app.py:347-350 | a window is kept exactly when it is in the list and complete for all three assets; the result is no longer than the input |
| Sequences.CompleteWindowsSimulatable | financial_simulation_lib.py:415-418 | every window that survives the completeness filter can be fed to the engine (15 yearly returns per asset) |
| Rebalancing.CurrentAllocation | financial_simulation_lib.py:431-437 | the four current shares of a positive invested total sum to one |
| Rebalancing.Normalized | financial_simulation_lib.py:468-472 | dividing a mix by its positive sum yields a mix summing to one |
| Rebalancing.Rebalance | financial_simulation_lib.py:424-472 | when the check does not fire the mix is unchanged; when it fires and the target sums to one, the new mix sums to one |
| Rebalancing.HalfStepSum | financial_simulation_lib.py:458-466 | the half-step mix sums to the target's sum plus half the relative total drift |
| Rebalancing.ThresholdZeroDetectsAnyDrift | financial_simulation_lib.py:439-445 | with threshold zero, rebalancing is needed exactly when the allocation differs from the target |
| Rebalancing.DriftHasUnderweight | financial_simulation_lib.py:457-459 | when allocation and target have equal sums and some asset drifts past the threshold, the total underweight is positive, so the division is safe |
| Rebalancing.HalfStepDirection | financial_simulation_lib.py:460-466 | an asset ends above its target exactly when it was underweight, and below exactly when it was overweight |
| Rebalancing.RebalanceIsHalfStep | financial_simulation_lib.py:468-472 | when the check fires, the new mix is the half-step mix computed from the current allocation |
| Rebalancing.RebalanceDirection | financial_simulation_lib.py:447-472 | after a firing check, each asset's new share is above its target iff it was underweight, and below iff it was overweight |
| Rebalancing.RebalancedShareCanBeNegative | financial_simulation_lib.py:460-466 | a concrete overweight portfolio for which the rebalanced NASDAQ share is negative |
| Engine.AppendAgrees | financial_simulation_lib.py:481-494 | appending the next month's state to a trajectory that agrees with the state function keeps it in agreement |
| Engine.MonthReturnsOfYear | financial_simulation_lib.py:415-420 | the return of month `12·year + month` uses that year's annual return and that month's draw for each asset |
| Engine.YearReturns | financial_simulation_lib.py:415-420 | the three per-year monthly return lists are exactly the run's returns for months 12·year … 12·year + 11 |
| Engine.MonthTransition | financial_simulation_lib.py:421-494 | one month's rebalancing check, contribution and growth produce exactly the next state of the state function |
| Engine.AgreesLast | financial_simulation_lib.py:421 | the last recorded entry of an agreeing trajectory is month n and holds the state after n months |
| Engine.FollowsStart | financial_simulation_lib.py:402-410 | month 0 records the starting amount split by the target mix, the emergency start and their sum as the baseline |
| Engine.SimulateMonth | financial_simulation_lib.py:420-494 | one month keeps the trajectory tracking the state function, one month further |
| Engine.SimulateYear | financial_simulation_lib.py:415-494 | one year of twelve months advances the tracked state by twelve months |
| Engine.SimulateRun | financial_simulation_lib.py:402-494 | the recorded trajectory has months 0 … 180 and each entry equals the state function at that month |
| EngineProperties.NextState | financial_simulation_lib.py:474-494 | the state after k + 1 months is one step from the state after k months |
| EngineProperties.EmergencyStep | financial_simulation_lib.py:493 | the emergency fund grows by exactly the HYSA factor each month |
| EngineProperties.BaselineStep | financial_simulation_lib.py:487 | the baseline receives the month's contribution and then grows by the HYSA factor |
| EngineProperties.MixStep | financial_simulation_lib.py:424-472 | the mix after a month is the active mix chosen at that month |
| EngineProperties.EmergencyClosedForm | financial_simulation_lib.py:493 | after m months the emergency fund is its start times (1 + HYSA rate)^m, whatever the market returns |
| EngineProperties.BaselineIndependentOfReturns | financial_simulation_lib.py:487-494 | the baseline and emergency fund do not depend on the mix, rebalancing settings or market returns |
| EngineProperties.BaselineZeroRate | financial_simulation_lib.py:487 | with a zero HYSA rate the baseline is the two starting amounts plus all contributions so far |
| EngineProperties.ImpliedContribution | financial_simulation_lib.py:175-180 | dividing the next baseline by the HYSA factor and subtracting the previous one recovers the month's contribution |
| EngineProperties.InitialPortfolioEqualsBaseline | financial_simulation_lib.py:402-410 | with a target mix summing to one, the starting portfolio total equals the starting baseline |
| EngineProperties.MixSumInvariant | financial_simulation_lib.py:468-472 | the active mix sums to one in every month when the target does |
| EngineProperties.NoRebalancingKeepsTarget | financial_simulation_lib.py:413-424 | without rebalancing, the target mix is used in every month |
| EngineProperties.MixChangesOnlyAtFiringCheck | financial_simulation_lib.py:424-472 | the mix changes only at a quarterly check (month > 0, divisible by 3) with rebalancing on and the threshold exceeded |
| EngineProperties.FiringCheckSetsMix | financial_simulation_lib.py:447-472 | at such a firing check, the new mix is the rebalanced mix |
| EngineProperties.ContributionFullyInvested | financial_simulation_lib.py:474-494 | in a month with zero returns, the portfolio grows by exactly the contribution, so nothing is lost or created in the split |
| EngineProperties.ContributedToWithoutRebalancing | financial_simulation_lib.py:252-253 | without rebalancing, the contributions that reach an asset are the total contribution times its target share |
| Simulation.SimulateSequence | financial_simulation_lib.py:401-500 | one run per iteration for a sequence, each the engine's trajectory for that iteration's draws, tagged with sequence and iteration |
| Simulation.RunInvestmentSimulation | financial_simulation_lib.py:380-502 | sequences × iterations runs in sequence-major order; run k belongs to sequence k div iterations and iteration k mod iterations |
| Simulation.RunShape | financial_simulation_lib.py:403-481 | every run is well formed with 181 entries whose month indices are 0 … 180 |
| Irr.MonthTimes | financial_simulation_lib.py:148-153 | the k-th monthly flow is dated (k + 1)/12 years |
| Irr.ContributionFlows | financial_simulation_lib.py:148-153 | the k-th monthly flow is minus month k's contribution |
| Irr.ContributionLoop | financial_simulation_lib.py:148-153 | the loop builds exactly the contribution flows and their dates |
| Irr.PortfolioCashFlows | financial_simulation_lib.py:137-161 | the portfolio flows are minus the initial total, the monthly contributions and the final total, dated 0, 1/12 … and 15 |
| Irr.ImpliedFlows | financial_simulation_lib.py:175-180 | the k-th baseline flow is minus the contribution implied by consecutive baselines |
| Irr.ImpliedLoop | financial_simulation_lib.py:175-180 | the loop fails exactly when there is a month and 1 + HYSA rate is zero; otherwise it yields the implied flows and their dates |
| Irr.BaselineFlows | financial_simulation_lib.py:168-184 | the baseline flows are absent exactly when the division by 1 + HYSA rate would fail |
| Irr.BaselineCashFlows | financial_simulation_lib.py:168-184 | the method builds exactly the baseline flows and, when present, their dates |
| Irr.FollowsBaselineRecurrence | financial_simulation_lib.py:487 | a simulated trajectory's baselines satisfy the add-then-grow recurrence |
| Irr.ImpliedFlowsRecoverSchedule | financial_simulation_lib.py:175-179 | on baselines that follow the recurrence, the implied flows are exactly the contribution flows |
| Irr.BaselineFlowsMatchPortfolio | financial_simulation_lib.py:137-184 | for a simulated run, baseline and portfolio flows have the same length and identical monthly flows, and the same initial flow when the mix sums to one |
| Irr.RunIrrs | financial_simulation_lib.py:135-188 | one run's IRR step yields the specified outcome: the IRRs kept when not NaN, or an abort |
| Irr.CalculateAllIrrs | financial_simulation_lib.py:123-193 | the loop over all runs yields the specified list of non-NaN IRRs, or an abort |
| Irr.AbortPropagates | financial_simulation_lib.py:178 | once a prefix of runs aborts, the whole computation aborts |
| Irr.AllIrrsOutcome | financial_simulation_lib.py:163-188 | the computation aborts exactly when 1 + HYSA rate is zero and some run has a month; otherwise at most one IRR per run is kept, and exactly one when the solver converges on every run |
| Statistics.Mean | financial_simulation_lib.py:222 | the mean is undefined exactly for no values |
| Statistics.MeanWithin | financial_simulation_lib.py:222 | the mean of values in [lo, hi] lies in [lo, hi] |
| Statistics.BeatPct | financial_simulation_lib.py:223 | the beat percentage is undefined exactly for no values |
| Statistics.BeatCountBounds | financial_simulation_lib.py:223 | the beat count is at most the number of values; it is all of them iff every value beats its baseline, and zero iff none does |
| Statistics.BeatPctRange | financial_simulation_lib.py:223 | the beat percentage is in [0, 100]; it is 100 iff every value beats its baseline, and 0 iff none does |
| Statistics.ExtractSimulationData | financial_simulation_lib.py:86-120 | the loop extracts, per run, the final total, the final baseline, the sequence index and the total time series |
| Statistics.ExtractedFromRun | financial_simulation_lib.py:95-113 | for a simulated run the time series has 181 entries equal to the engine's portfolio totals; the final value is its last entry; the month-0 total equals the month-0 baseline when the mix sums to one |
| Statistics.CalculateMilestoneStatistics | financial_simulation_lib.py:196-225 | the statistics at year y are those of the states of all runs that reach month 12·y |
| Statistics.MilestoneCount | financial_simulation_lib.py:205-206 | at most one point per run; one per run when all runs reach the month, none when no run does |
| Statistics.MilestonePointsFromRuns | financial_simulation_lib.py:205-213 | every milestone point is some run's state at that month |
| Statistics.MilestoneBeatRange | financial_simulation_lib.py:223 | with at least one point, the milestone statistics exist and the beat percentage is in [0, 100] |
| Statistics.MilestoneBaselineWithin | financial_simulation_lib.py:205-222 | the milestone's average baseline lies within any bounds that hold for the month-m baseline of every run reaching month m |
| Statistics.FullRunsMilestone | financial_simulation_lib.py:200-206 | for complete runs, every year 0 … 15 has one point per run and later years have none |
| Statistics.SumContributions | financial_simulation_lib.py:244-247 | the loop sums the contributions of months 0 … n − 1 |
| Statistics.AppendFundReturn | financial_simulation_lib.py:249-290 | one run appends its annualised return for a fund only when the amount invested in that fund is positive |
| Statistics.AddRun | financial_simulation_lib.py:249-290 | one run extends each of the five fund lists by that fund's reported return |
| Statistics.CalculateFundReturns | financial_simulation_lib.py:228-298 | each fund's list is the concatenation, in run order, of the runs' reported returns |
| Statistics.FundListCount | financial_simulation_lib.py:249-290 | at most one return per run; one per run when every run invested in the fund, none when none did |
| Statistics.ReportedLength | financial_simulation_lib.py:249-290 | a run reports a return for a fund exactly when the amount invested in it is positive |
| Statistics.InvestedMatchesEngine | financial_simulation_lib.py:250-253 | without rebalancing, the invested amount the statistics assume for an asset equals the engine's initial holding plus the contributions it actually routed there |
| Statistics.EmergencyReturnOfRun | financial_simulation_lib.py:285-290 | the emergency fund's reported return is the annualised value of (1 + HYSA rate)^180 |
| Schedule.GetContributionForMonth | app.py:22-44 | the lookup loop returns the specified contribution. It scans the list in order and stops at the first period that has not started. It returns the last of the leading periods that have started, or the first period's contribution if none has. On a list sorted by start month, that is the latest-starting period that has started |
| Schedule.ScanStopsAt | app.py:37-44 | when the first k periods have started and period k has not, the contribution is period k − 1's |
| Schedule.SortedLookup | app.py:37-44 | on a list sorted by start month, the contribution is that of the latest-starting period that has started |
| Schedule.BuildPeriods | app.py:126-166 | the period list is the entered periods stably sorted by start month |
| Schedule.EnteredStarts | app.py:130-163 | the first period starts at month 0 and occurs once; every other starts in months 1 … 180 |
| Schedule.PeriodListShape | app.py:126-166 | the sorted list has one period per entry, begins with the first entered period at month 0, has later starts in 1 … 180, is sorted and is a permutation of the entries |
| Sorting.InsertSorted | app.py:166 | inserting into a sorted list keeps it sorted |
| Sorting.InsertPermutes | app.py:166 | inserting adds exactly the element to the multiset |
| Sorting.SortSorted | app.py:166 | the sorted list is ordered by key |
| Sorting.SortPermutes | app.py:166 | the sorted list is a permutation of the input |
| Sorting.WithKeyAppend | app.py:166 | selecting the elements with one key distributes over concatenation |
| Sorting.InsertWithKey | app.py:166 | inserting places the new element after every element with an equal key |
| Sorting.SortStable | app.py:916 | elements with equal keys keep their input order |
| App.EnabledMembers | app.py:330 | the enabled list holds exactly the enabled slots among 1 … n, in increasing order |
| App.EnabledPortfolios | app.py:330 | the loop builds exactly the enabled list |
| App.OffendingMembers | app.py:335-341 | an id is reported exactly when it was checked and its allocation does not total 100 |
| App.CheckTotals | app.py:335-341 | the errors are the offending ids, and the check passes exactly when there are none |
| App.ValidatePortfolios | app.py:330-343 | the validation method returns the specified verdict |
| App.ValidationSpec | app.py:330-343 | valid iff some portfolio is enabled and every enabled one totals 100; "none enabled" iff no portfolio is enabled; an invalid verdict names exactly the enabled portfolios whose total is not 100 |
| App.MixOfSumsToOne | app.py:366-371 | the mix made from percentages sums to one exactly when they total 100 |
| App.ValidMixes | app.py:366-371 | after a valid verdict, every enabled portfolio yields a mix summing to one |
| App.SummaryBeatPct | app.py:983 | over any non-empty run set the summary's beat percentage exists, is in [0, 100], and is 100 iff every run ends above its baseline |
| App.SharesSumTo100 | app.py:784-788 | the four allocation percentages of a positive total sum to 100, and each lies in [0, 100] when the balances are non-negative |
| App.MonthShares | app.py:777-788 | the loop collects the specified shares of the runs that record the month with a positive total |
| App.RecordedSpec | app.py:777-788 | no shares are collected exactly when no run records the month with a positive total; each collected share set sums to 100 |
| App.AllocationOverTime | app.py:762-800 | one entry per month 0 … 180, each the median shares of the runs recorded at that month |
| App.AllocationGap | app.py:791-800 | a month's entry is missing exactly when no run records it with a positive total |
| App.SelectSize | app.py:897-899 | selecting finals and baselines by the same mask gives lists of equal length, and the selection is empty iff no run belongs to the sequence |
| App.RowSpec | app.py:901-913 | a sequence has a row exactly when some run belongs to it; the row is tagged with the sequence and its beat percentage is in [0, 100] |
| App.SequenceRow | app.py:901-913 | the method computes the specified row of one sequence |
| App.SequencePerformance | app.py:895-913 | the loop builds the specified performance table |
| App.PresentRows | app.py:895-913 | the table's rows appear in increasing sequence order, and each is the row of its sequence |
| App.PresentComplete | app.py:895-913 | every sequence that has a row appears in the table |
| App.RowsTagged | app.py:895-913 | row s is present exactly when some run belongs to sequence s |
| App.PerformanceTableSpec | app.py:895-913 | the table holds, in increasing order, exactly the sequences that have runs, each with a beat percentage in [0, 100] |
| App.RankedSpec | app.py:916 | the ranking is a permutation of the table, ordered by decreasing median, with ties kept in table order |
| App.TopAndWorst | app.py:916-936 | top and worst lists have min(3, rows) entries; no later row beats a top row, and no earlier row falls below a worst row |

## Left out

- Sequences.CompleteSequences: states membership and length, but not that the filter keeps the input order.
- Sequences.GetSequences: the function promises all 15-year sequences (financial_simulation_lib.py:314-316), but the start-year range (financial_simulation_lib.py:326) ends at latest − 15. So no window ends in the latest year. The model follows the code.
- Sequences.GetSequences: an empty year series makes the source fail with an index error (financial_simulation_lib.py:319-323). The precondition excludes that case, and the error path is not modelled.
- Statistics.CalculateMilestoneStatistics: the 25th, 50th and 75th percentiles and the median gain come from a `percentile` parameter. numpy's percentile algorithm is not modelled.
- Irr.RunIrrs: the Newton-method IRR solver is a parameter that returns no value for NaN. Its iteration, tolerance and convergence are not modelled.
- App.AllocationOverTime: numpy's median is a parameter.
- App.PerformanceTableSpec: the median in a row comes from a parameter. The four percentile fields only feed the displayed tables and are not modelled. The contract states the row selection, the order and the beat percentage.
- The random draws (numpy's normal generator) are inputs: twelve draws per asset per year. Zero volatility is the case of all-zero draws.
- Fractional powers, `(1 + y)^(1/12) − 1` and `x^(1/15) − 1`, are parameters (`monthlyRate`, `root15`). Nothing is claimed about their values.
- Floating point is modelled as exact real arithmetic. A NaN from 0/0 is `None`. The division by zero when 1 + HYSA rate is 0 aborts the IRR computation, and is modelled as `None`.
- The built-in table of historical annual returns is data, not logic. The model takes any table whose three series are non-empty.
- The results dictionary of parallel lists is modelled as a sequence of run records.
- Streamlit widgets, session state, charts, tables, text formatting, the comparison tab and CSV export are presentation and are not modelled.
- The conversion from a portfolio's dashboard settings to simulation arguments is not modelled as a function. This covers the threshold percentage divided by 100 and the rebalancing flag. Only the allocation mix (`App.MixOf`) is modelled.
- `calculate_fund_returns` is not called by the dashboard. It is modelled as library code.
