/**
 * The dashboard's contribution schedule: up to four periods, each a monthly
 * contribution and the month it starts at, sorted by start month, and the
 * lookup `get_contribution_for_month` that the simulation and the IRR cash
 * flows call for every month.
 */
module Schedule {
  import opened Sorting

  /** One contribution period: the monthly amount and its first month. */
  datatype Period = Period(contribution: real, startMonth: int)

  /** The sort key of the period list. */
  function StartKey(p: Period): real
  {
    p.startMonth as real
  }

  /**
   * The scan over `ps` with `acc` as the amount found so far: each period whose
   * start month is at most `month` replaces `acc`; the first one that starts
   * later ends the scan.
   */
  function Scan(month: int, ps: seq<Period>, acc: real): real
  {
    if ps == [] then acc
    else if month >= ps[0].startMonth then Scan(month, ps[1..], ps[0].contribution)
    else acc
  }

  /** The amount the lookup returns: the scan starting from the first period's amount. */
  function ContributionFor(month: int, ps: seq<Period>): real
    requires ps != []
  {
    Scan(month, ps, ps[0].contribution)
  }

  /** The lookup as a loop that stops at the first period starting after `month`. */
  method GetContributionForMonth(month: int, ps: seq<Period>) returns (c: real)
    requires ps != []
    ensures c == ContributionFor(month, ps)
  {
    c := ps[0].contribution;
    var i := 0;
    while i < |ps|
      invariant 0 <= i <= |ps|
      invariant Scan(month, ps[i..], c) == ContributionFor(month, ps)
    {
      if month >= ps[i].startMonth {
        assert ps[i..][1..] == ps[i + 1..];
        c := ps[i].contribution;
      } else {
        break;
      }
      i := i + 1;
    }
  }

  /**
   * The lookup on any list: when periods 0 .. k - 1 have started by `month` and
   * period k (if any) has not, the amount is that of period k - 1, whatever follows.
   */
  lemma {:induction false} ScanStopsAt(month: int, ps: seq<Period>, acc: real, k: nat)
    requires 1 <= k <= |ps|
    requires forall j :: 0 <= j < k ==> ps[j].startMonth <= month
    requires k == |ps| || month < ps[k].startMonth
    ensures Scan(month, ps, acc) == ps[k - 1].contribution
  {
    if k > 1 {
      var tail := ps[1..];
      forall j | 0 <= j < k - 1
        ensures tail[j].startMonth <= month
      {
        assert tail[j] == ps[j + 1];
      }
      ScanStopsAt(month, tail, ps[0].contribution, k - 1);
    } else if k < |ps| {
      assert ps[1..][0] == ps[1];
    }
  }

  /** A month before the first period's start gets the first period's amount. */
  lemma BeforeFirstStart(month: int, ps: seq<Period>)
    requires ps != [] && month < ps[0].startMonth
    ensures ContributionFor(month, ps) == ps[0].contribution
  {
  }

  /**
   * On a list sorted by start month the amount is that of the last period that
   * has started by `month`; among periods with the same start the later one wins.
   */
  lemma SortedLookup(month: int, ps: seq<Period>, k: nat)
    requires SortedBy(ps, StartKey)
    requires k < |ps| && ps[k].startMonth <= month
    requires forall j :: k < j < |ps| ==> month < ps[j].startMonth
    ensures ContributionFor(month, ps) == ps[k].contribution
  {
    forall j | 0 <= j < k + 1
      ensures ps[j].startMonth <= month
    {
      assert StartKey(ps[j]) <= StartKey(ps[k]);
    }
    if k + 1 < |ps| {
      assert month < ps[k + 1].startMonth;
    }
    ScanStopsAt(month, ps, ps[0].contribution, k + 1);
  }

  /** The periods as the sidebar appends them: period 0 starts at month 0, period i at its slider value. */
  function Entered(contributions: seq<real>, startMonths: seq<int>): (ps: seq<Period>)
    requires |contributions| == |startMonths| >= 1
    ensures |ps| == |contributions|
  {
    seq(|contributions|, i requires 0 <= i < |contributions| =>
      Period(contributions[i], if i == 0 then 0 else startMonths[i]))
  }

  /**
   * The period list: one period per sidebar entry, appended in entry order and
   * then sorted by start month. `startMonths[0]` is unused (the first period
   * has no slider); the others come from sliders ranging over 1 .. 180.
   */
  method BuildPeriods(contributions: seq<real>, startMonths: seq<int>) returns (ps: seq<Period>)
    requires 1 <= |contributions| <= 4 && |startMonths| == |contributions|
    requires forall i :: 1 <= i < |startMonths| ==> 1 <= startMonths[i] <= 180
    ensures ps == SortBy(Entered(contributions, startMonths), StartKey)
  {
    var entered: seq<Period> := [];
    for i := 0 to |contributions|
      invariant entered == Entered(contributions, startMonths)[..i]
    {
      var start := if i == 0 then 0 else startMonths[i];
      entered := entered + [Period(contributions[i], start)];
    }
    assert entered == Entered(contributions, startMonths);
    ps := SortBy(entered, StartKey);
  }

  /** The only entered period starting at month 0 is the first one. */
  lemma EnteredStarts(contributions: seq<real>, startMonths: seq<int>)
    requires |contributions| == |startMonths| >= 1
    requires forall i :: 1 <= i < |startMonths| ==> 1 <= startMonths[i] <= 180
    ensures forall p :: p in Entered(contributions, startMonths) ==>
              p == Period(contributions[0], 0) || 1 <= p.startMonth <= 180
    ensures multiset(Entered(contributions, startMonths))[Period(contributions[0], 0)] == 1
  {
    var e := Entered(contributions, startMonths);
    var first := Period(contributions[0], 0);
    assert e == [first] + e[1..];
    assert first !in e[1..];
  }

  /** Two positions holding the same value give it multiplicity at least two. */
  lemma TwiceCounted<T>(s: seq<T>, i: nat, j: nat)
    requires i < j < |s| && s[i] == s[j]
    ensures multiset(s)[s[i]] >= 2
  {
    assert s == s[..j] + [s[j]] + s[j + 1..];
    assert s[i] in s[..j];
  }

  /**
   * The sorted period list is non-empty, starts with the first entered period
   * (month 0, the first amount), every later period starts in 1 .. 180, and it
   * is sorted by start month and a permutation of the entered periods.
   */
  lemma PeriodListShape(contributions: seq<real>, startMonths: seq<int>)
    requires 1 <= |contributions| <= 4 && |startMonths| == |contributions|
    requires forall i :: 1 <= i < |startMonths| ==> 1 <= startMonths[i] <= 180
    ensures var ps := SortBy(Entered(contributions, startMonths), StartKey);
      && |ps| == |contributions|
      && ps[0] == Period(contributions[0], 0)
      && (forall j :: 1 <= j < |ps| ==> 1 <= ps[j].startMonth <= 180)
      && SortedBy(ps, StartKey)
      && multiset(ps) == multiset(Entered(contributions, startMonths))
  {
    var e := Entered(contributions, startMonths);
    var ps := SortBy(e, StartKey);
    var first := Period(contributions[0], 0);
    SortSorted(e, StartKey);
    SortPermutes(e, StartKey);
    EnteredStarts(contributions, startMonths);
    assert forall j :: 0 <= j < |ps| ==> ps[j] in multiset(e);
    assert first in multiset(ps);
    var k :| 0 <= k < |ps| && ps[k] == first;
    assert StartKey(ps[0]) <= StartKey(ps[k]);
    assert ps[0] == first;
    forall j | 1 <= j < |ps|
      ensures 1 <= ps[j].startMonth <= 180
    {
      if ps[j] == first {
        TwiceCounted(ps, 0, j);
      }
    }
  }
}
