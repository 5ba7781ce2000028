/**
 * The outer loops of `run_investment_simulation`: one run per (sequence, iteration)
 * pair, sequence-major and iteration-minor, each tagged with its iteration, its
 * sequence index and the window's start and end years.
 */
module Simulation {
  import opened Portfolio
  import opened Sequences
  import opened Engine

  /** What the source promises of one whole run: its months 0..180 agree with `StateAt`. */
  predicate IsRun(r: Run, cfg: Config, w: Window, draws: seq<YearDraws>, s: nat, i: nat)
    requires Simulatable(w) && DrawsOk(draws)
  {
    && r.iteration == i && r.sequenceIndex == s
    && r.startYear == w.startYear && r.endYear == w.endYear
    && Follows(r.trajectory, cfg, RunReturns(cfg, w, draws))
  }

  /** The draws for every (sequence, iteration) pair: one per iteration of each sequence. */
  predicate AllDrawsOk(draws: seq<seq<seq<YearDraws>>>, sequences: nat, iterations: nat)
  {
    && |draws| == sequences
    && forall s :: 0 <= s < |draws| ==>
         |draws[s]| == iterations && forall i :: 0 <= i < |draws[s]| ==> DrawsOk(draws[s][i])
  }

  /** The iterations of one sequence, in iteration order. */
  method SimulateSequence(cfg: Config, w: Window, s: nat, iterations: nat, draws: seq<seq<YearDraws>>)
    returns (block: seq<Run>)
    requires Simulatable(w) && |draws| == iterations
    requires forall i :: 0 <= i < iterations ==> DrawsOk(draws[i])
    ensures |block| == iterations
    ensures forall i :: 0 <= i < iterations ==> IsRun(block[i], cfg, w, draws[i], s, i)
  {
    block := [];
    var iteration := 0;
    while iteration < iterations
      invariant 0 <= iteration <= iterations && |block| == iteration
      invariant forall i :: 0 <= i < iteration ==> IsRun(block[i], cfg, w, draws[i], s, i)
    {
      var t := SimulateRun(cfg, w, draws[iteration]);
      block := block + [Run(iteration, s, w.startYear, w.endYear, t)];
      iteration := iteration + 1;
    }
  }

  /**
   * All runs: |sequences| * iterations of them, run k being iteration k % iterations
   * of sequence k / iterations, stated without division: its tags s and i satisfy
   * k == s * iterations + i.
   */
  method RunInvestmentSimulation(cfg: Config, sequences: seq<Window>, iterations: nat,
                                 draws: seq<seq<seq<YearDraws>>>)
    returns (runs: seq<Run>)
    requires forall s :: 0 <= s < |sequences| ==> Simulatable(sequences[s])
    requires AllDrawsOk(draws, |sequences|, iterations)
    ensures |runs| == |sequences| * iterations
    ensures forall k :: 0 <= k < |runs| ==>
              && runs[k].sequenceIndex < |sequences| && runs[k].iteration < iterations
              && k == runs[k].sequenceIndex * iterations + runs[k].iteration
              && IsRun(runs[k], cfg, sequences[runs[k].sequenceIndex],
                       draws[runs[k].sequenceIndex][runs[k].iteration],
                       runs[k].sequenceIndex, runs[k].iteration)
  {
    runs := [];
    var s := 0;
    while s < |sequences|
      invariant 0 <= s <= |sequences| && |runs| == s * iterations
      invariant forall k :: 0 <= k < |runs| ==>
                  && runs[k].sequenceIndex < s && runs[k].iteration < iterations
                  && k == runs[k].sequenceIndex * iterations + runs[k].iteration
                  && IsRun(runs[k], cfg, sequences[runs[k].sequenceIndex],
                           draws[runs[k].sequenceIndex][runs[k].iteration],
                           runs[k].sequenceIndex, runs[k].iteration)
    {
      var block := SimulateSequence(cfg, sequences[s], s, iterations, draws[s]);
      var before := runs;
      runs := runs + block;
      forall k | |before| <= k < |runs|
        ensures k == runs[k].sequenceIndex * iterations + runs[k].iteration
      {
        assert runs[k] == block[k - |before|];
      }
      s := s + 1;
    }
  }

  /** Every run's trajectory has Month_Index 0, 1, ..., 180 and 181 entries in each series. */
  lemma RunShape(r: Run, cfg: Config, w: Window, draws: seq<YearDraws>, s: nat, i: nat)
    requires Simulatable(w) && DrawsOk(draws)
    requires IsRun(r, cfg, w, draws, s, i)
    ensures WellFormed(r.trajectory) && Length(r.trajectory) == Months + 1
    ensures r.trajectory.monthIndex == seq(Months + 1, k => k)
  {
    var t := r.trajectory;
    forall k | 0 <= k <= Months
      ensures t.monthIndex[k] == k
    {
      assert At(t, k) == StateAt(cfg, RunReturns(cfg, w, draws), k).bal;
    }
  }
}
