/**
 * The historical-window builder (`get_15_year_sequences`): every 15-year
 * window of the annual return table, one per start year, with each asset's
 * slice present only when that asset has a return for every year of the window.
 */
module Sequences {
  import opened Wrappers
  import opened Portfolio

  /** Per asset, year -> annual percent return (the source's `market_returns`). */
  datatype ReturnTable = ReturnTable(sp500: map<int, real>, nasdaq100: map<int, real>,
                                     tbill3m: map<int, real>)

  /** One historical window; an asset's slice is None when a year of the window is missing. */
  datatype Window = Window(startYear: int, endYear: int, sp500: Option<seq<real>>,
                           nasdaq100: Option<seq<real>>, tbill3m: Option<seq<real>>)

  lemma HasMember(s: set<int>)
    requires s != {}
    ensures exists x :: x in s
  {
    if forall x :: x !in s {
      assert false;
    }
  }

  /** Smallest element of a non-empty set of years: the first of the sorted keys. */
  ghost function SetMin(s: set<int>): (m: int)
    requires s != {}
    ensures m in s && forall y :: y in s ==> m <= y
    decreases s
  {
    HasMember(s);
    var x :| x in s;
    if s == {x} then assert forall y :: y in s ==> y == x; x
    else
      var r := SetMin(s - {x});
      assert forall y :: y in s ==> y == x || y in s - {x};
      if x <= r then x else r
  }

  /** Largest element of a non-empty set of years: the last of the sorted keys. */
  ghost function SetMax(s: set<int>): (m: int)
    requires s != {}
    ensures m in s && forall y :: y in s ==> y <= m
    decreases s
  {
    HasMember(s);
    var x :| x in s;
    if s == {x} then assert forall y :: y in s ==> y == x; x
    else
      var r := SetMax(s - {x});
      assert forall y :: y in s ==> y == x || y in s - {x};
      if x >= r then x else r
  }

  predicate NonEmpty(table: ReturnTable)
  {
    table.sp500 != map[] && table.nasdaq100 != map[] && table.tbill3m != map[]
  }

  function Min3(a: int, b: int, c: int): int
  {
    if a <= b && a <= c then a else if b <= c then b else c
  }

  function Max3(a: int, b: int, c: int): int
  {
    if a >= b && a >= c then a else if b >= c then b else c
  }

  /** The earliest year of any of the three series. */
  ghost function Earliest(table: ReturnTable): int
    requires NonEmpty(table)
  {
    Min3(SetMin(table.sp500.Keys), SetMin(table.nasdaq100.Keys), SetMin(table.tbill3m.Keys))
  }

  /** The latest year of any of the three series. */
  ghost function Latest(table: ReturnTable): int
    requires NonEmpty(table)
  {
    Max3(SetMax(table.sp500.Keys), SetMax(table.nasdaq100.Keys), SetMax(table.tbill3m.Keys))
  }

  /** The series has a return for every year of the window starting at `start`. */
  predicate Covers(series: map<int, real>, start: int)
  {
    forall y :: start <= y <= start + 14 ==> y in series
  }

  /** The window's returns in year order. */
  function Slice(series: map<int, real>, start: int): seq<real>
    requires Covers(series, start)
  {
    seq(Years, i requires 0 <= i < Years => series[start + i])
  }

  function SliceIfCovered(series: map<int, real>, start: int): Option<seq<real>>
  {
    if Covers(series, start) then Some(Slice(series, start)) else None
  }

  /** The window the source builds for one start year. */
  function WindowAt(table: ReturnTable, start: int): Window
  {
    Window(start, start + 14, SliceIfCovered(table.sp500, start),
           SliceIfCovered(table.nasdaq100, start), SliceIfCovered(table.tbill3m, start))
  }

  /** The caller's filter: no asset slice is None. */
  predicate IsComplete(w: Window)
  {
    w.sp500.Some? && w.nasdaq100.Some? && w.tbill3m.Some?
  }

  /** A complete window whose three slices have one return per simulated year. */
  predicate Simulatable(w: Window)
  {
    IsComplete(w) && |w.sp500.value| == Years && |w.nasdaq100.value| == Years
    && |w.tbill3m.value| == Years
  }

  /** Smallest key of a non-empty year set, by a scan over the set. */
  method FirstYear(s: set<int>) returns (m: int)
    requires s != {}
    ensures m == SetMin(s)
  {
    HasMember(s);
    var x :| x in s;
    m := x;
    var rest := s - {x};
    while rest != {}
      invariant rest <= s && m in s
      invariant forall y :: y in s && y !in rest ==> m <= y
      decreases rest
    {
      HasMember(rest);
      var y :| y in rest;
      if y < m {
        m := y;
      }
      rest := rest - {y};
    }
    ghost var least := SetMin(s);
    assert m <= least;
  }

  /** Largest key of a non-empty year set, by a scan over the set. */
  method LastYear(s: set<int>) returns (m: int)
    requires s != {}
    ensures m == SetMax(s)
  {
    HasMember(s);
    var x :| x in s;
    m := x;
    var rest := s - {x};
    while rest != {}
      invariant rest <= s && m in s
      invariant forall y :: y in s && y !in rest ==> y <= m
      decreases rest
    {
      HasMember(rest);
      var y :| y in rest;
      if y > m {
        m := y;
      }
      rest := rest - {y};
    }
    ghost var greatest := SetMax(s);
    assert greatest <= m;
  }

  /**
   * get_15_year_sequences: one window per start year from the earliest year of any
   * series up to, but excluding, latest - 14; so the last window ends in latest - 1.
   */
  method GetSequences(table: ReturnTable) returns (windows: seq<Window>)
    requires NonEmpty(table)
    ensures |windows| == if Latest(table) - 14 > Earliest(table)
                         then Latest(table) - 14 - Earliest(table) else 0
    ensures forall k :: 0 <= k < |windows| ==>
              && windows[k].startYear == Earliest(table) + k
              && windows[k].endYear == windows[k].startYear + 14
              && windows[k].endYear < Latest(table)
    ensures forall k :: 0 <= k < |windows| ==> windows[k] == WindowAt(table, Earliest(table) + k)
  {
    var sp0 := FirstYear(table.sp500.Keys);
    var nq0 := FirstYear(table.nasdaq100.Keys);
    var tb0 := FirstYear(table.tbill3m.Keys);
    var sp1 := LastYear(table.sp500.Keys);
    var nq1 := LastYear(table.nasdaq100.Keys);
    var tb1 := LastYear(table.tbill3m.Keys);
    var earliest := Min3(sp0, nq0, tb0);
    var latest := Max3(sp1, nq1, tb1);
    windows := [];
    var start := earliest;
    while start < latest - 14
      invariant earliest <= start
      invariant start <= latest - 14 || start == earliest
      invariant |windows| == start - earliest
      invariant forall k :: 0 <= k < |windows| ==> windows[k] == WindowAt(table, earliest + k)
    {
      windows := windows + [WindowAt(table, start)];
      start := start + 1;
    }
  }

  /** A window's slice is present exactly when its series covers all 15 years, and then lists them in year order. */
  lemma WindowSlices(table: ReturnTable, start: int)
    ensures WindowAt(table, start).sp500.Some? <==> Covers(table.sp500, start)
    ensures WindowAt(table, start).nasdaq100.Some? <==> Covers(table.nasdaq100, start)
    ensures WindowAt(table, start).tbill3m.Some? <==> Covers(table.tbill3m, start)
    ensures IsComplete(WindowAt(table, start)) ==>
              && Simulatable(WindowAt(table, start))
              && forall i :: 0 <= i < Years ==>
                   && WindowAt(table, start).sp500.value[i] == table.sp500[start + i]
                   && WindowAt(table, start).nasdaq100.value[i] == table.nasdaq100[start + i]
                   && WindowAt(table, start).tbill3m.value[i] == table.tbill3m[start + i]
  {
  }

  /** The caller's filter (`complete_sequences`): the complete windows, in their original order. */
  function CompleteSequences(windows: seq<Window>): (r: seq<Window>)
    ensures |r| <= |windows|
    ensures forall w :: w in r <==> w in windows && IsComplete(w)
  {
    if windows == [] then []
    else
      var rest := CompleteSequences(windows[..|windows| - 1]);
      var w := windows[|windows| - 1];
      assert windows == windows[..|windows| - 1] + [w];
      if IsComplete(w) then rest + [w] else rest
  }

  /** Windows produced by GetSequences that pass the filter can be simulated. */
  lemma {:induction false} CompleteWindowsSimulatable(table: ReturnTable, windows: seq<Window>, earliest: int)
    requires forall k :: 0 <= k < |windows| ==> windows[k] == WindowAt(table, earliest + k)
    ensures forall w :: w in CompleteSequences(windows) ==> Simulatable(w)
  {
    forall w | w in CompleteSequences(windows)
      ensures Simulatable(w)
    {
      var k :| 0 <= k < |windows| && windows[k] == w;
      WindowSlices(table, earliest + k);
    }
  }
}
