/** `compute_streaks` (app.py:2517-2568): the current and the record run
    of winning trading days, then of winning weeks. A day or week wins when
    its P&L is strictly positive. Days are taken in date order; the weekly
    totals (pandas' `resample("W-SUN").sum()`) are an input. */
module Streaks {
  import opened Wrappers
  import opened Series

  /** Length of the run of wins that ends the sequence. */
  function TrailingRun(wins: seq<bool>): (n: nat)
    ensures n <= |wins|
  {
    if wins == [] || !wins[|wins| - 1] then 0 else TrailingRun(wins[..|wins| - 1]) + 1
  }

  /** Length of the longest run of wins anywhere in the sequence. */
  function LongestRun(wins: seq<bool>): (n: nat)
    ensures TrailingRun(wins) <= n <= |wins|
  {
    if wins == [] then 0
    else
      var before := LongestRun(wins[..|wins| - 1]);
      var last := TrailingRun(wins);
      if last > before then last else before
  }

  /** Every entry in [lo, hi) is a win. */
  predicate AllWins(wins: seq<bool>, lo: int, hi: int)
    requires 0 <= lo <= hi <= |wins|
  {
    forall k :: lo <= k < hi ==> wins[k]
  }

  /** The trailing run is the longest suffix made of wins: its entries all
      win and the entry before it, if any, loses. */
  lemma {:induction false} TrailingRunIsMaximalSuffix(wins: seq<bool>)
    ensures AllWins(wins, |wins| - TrailingRun(wins), |wins|)
    ensures TrailingRun(wins) < |wins| ==> !wins[|wins| - 1 - TrailingRun(wins)]
    decreases |wins|
  {
    if wins != [] && wins[|wins| - 1] {
      var n := |wins| - 1;
      TrailingRunIsMaximalSuffix(wins[..n]);
      assert forall k :: 0 <= k < n ==> wins[..n][k] == wins[k];
    }
  }

  /** A suffix of wins preceded by a loss, or by nothing, is the trailing
      run. */
  lemma {:induction false} TrailingRunOfSuffix(wins: seq<bool>, i: nat)
    requires i <= |wins| && AllWins(wins, i, |wins|) && (i == 0 || !wins[i - 1])
    ensures TrailingRun(wins) == |wins| - i
    decreases |wins|
  {
    if i < |wins| {
      var n := |wins| - 1;
      assert forall k :: 0 <= k < n ==> wins[..n][k] == wins[k];
      TrailingRunOfSuffix(wins[..n], i);
    }
  }

  /** Some window of wins is as long as the longest run, and none is
      longer. */
  lemma {:induction false} LongestRunIsLongestWindow(wins: seq<bool>)
    ensures exists lo, hi :: 0 <= lo <= hi <= |wins| && hi - lo == LongestRun(wins) && AllWins(wins, lo, hi)
    ensures forall lo, hi :: 0 <= lo <= hi <= |wins| && AllWins(wins, lo, hi) ==> hi - lo <= LongestRun(wins)
    decreases |wins|
  {
    if wins == [] {
      assert AllWins(wins, 0, 0);
    } else {
      var n := |wins| - 1;
      var prefix := wins[..n];
      LongestRunIsLongestWindow(prefix);
      TrailingRunIsMaximalSuffix(wins);
      assert forall k :: 0 <= k < n ==> prefix[k] == wins[k];
      var r := LongestRun(wins);
      if r == TrailingRun(wins) {
        assert AllWins(wins, |wins| - r, |wins|);
      } else {
        var lo, hi :| 0 <= lo <= hi <= n && hi - lo == LongestRun(prefix) && AllWins(prefix, lo, hi);
        assert AllWins(wins, lo, hi);
      }
      forall lo, hi | 0 <= lo <= hi <= |wins| && AllWins(wins, lo, hi)
        ensures hi - lo <= r
      {
        if hi <= n {
          assert AllWins(prefix, lo, hi);
        } else {
          var t := TrailingRun(wins);
          assert t < |wins| ==> lo > |wins| - 1 - t;
        }
      }
    }
  }

  /** Appending one entry: the trailing run grows by one on a win and
      resets on a loss, and the record is the larger of the old record and
      the new trailing run. */
  lemma StepRuns(wins: seq<bool>, i: nat)
    requires i < |wins|
    ensures TrailingRun(wins[..i + 1]) == if wins[i] then TrailingRun(wins[..i]) + 1 else 0
    ensures var t := TrailingRun(wins[..i + 1]);
      LongestRun(wins[..i + 1]) == if t > LongestRun(wins[..i]) then t else LongestRun(wins[..i])
  {
    assert wins[..i + 1][..i] == wins[..i];
  }

  /** The two loops of `compute_streaks` over one sequence of win flags:
      walking back from the end until the first loss, and walking forward
      keeping the current run and the record. */
  method Streak(wins: seq<bool>) returns (current: nat, record: nat)
    ensures current == TrailingRun(wins)
    ensures record == LongestRun(wins)
  {
    current := 0;
    var i := |wins|;
    while i > 0
      invariant 0 <= i <= |wins|
      invariant current == |wins| - i
      invariant AllWins(wins, i, |wins|)
    {
      if wins[i - 1] {
        current := current + 1;
        i := i - 1;
      } else {
        break;
      }
    }
    TrailingRunOfSuffix(wins, i);

    record := 0;
    var run: nat := 0;
    var j := 0;
    while j < |wins|
      invariant 0 <= j <= |wins|
      invariant run == TrailingRun(wins[..j])
      invariant record == LongestRun(wins[..j])
    {
      StepRuns(wins, j);
      if wins[j] {
        run := run + 1;
        record := if record > run then record else run;
      } else {
        run := 0;
      }
      j := j + 1;
    }
    assert wins[..|wins|] == wins;
  }

  /** Win flags of a P&L column: strictly positive entries win. */
  function Winning(xs: seq<real>): (w: seq<bool>)
    ensures |w| == |xs|
    ensures forall i :: 0 <= i < |xs| ==> (w[i] <==> xs[i] > 0.0)
  {
    seq(|xs|, i requires 0 <= i < |xs| => xs[i] > 0.0)
  }

  datatype Counts = Counts(current: nat, record: nat)
  datatype StreakReport = StreakReport(daily: Counts, weekly: Counts)

  /** `compute_streaks`: all counts 0 without trading days; otherwise the
      trailing and longest runs of winning days (a missing P&L counting as
      flat) and of winning weeks. */
  method ComputeStreaks(dailyPnl: seq<Option<real>>, weeklyPnl: seq<real>) returns (r: StreakReport)
    ensures dailyPnl == [] ==> r == StreakReport(Counts(0, 0), Counts(0, 0))
    ensures dailyPnl != [] ==>
      && r.daily == Counts(TrailingRun(Winning(Filled(dailyPnl))), LongestRun(Winning(Filled(dailyPnl))))
      && r.weekly == Counts(TrailingRun(Winning(weeklyPnl)), LongestRun(Winning(weeklyPnl)))
    ensures r.daily.current <= r.daily.record && r.weekly.current <= r.weekly.record
  {
    if dailyPnl == [] {
      return StreakReport(Counts(0, 0), Counts(0, 0));
    }
    var current, record := Streak(Winning(Filled(dailyPnl)));
    var wcur, wrec := Streak(Winning(weeklyPnl));
    r := StreakReport(Counts(current, record), Counts(wcur, wrec));
  }

  /** Days +10, +5, -3, +2, +2: the current streak is the last two days and
      no earlier run is longer. */
  lemma ExampleStreak()
    ensures var w := Winning([10.0, 5.0, -3.0, 2.0, 2.0]);
      TrailingRun(w) == 2 && LongestRun(w) == 2
  {
    var w := Winning([10.0, 5.0, -3.0, 2.0, 2.0]);
    assert w == [true, true, false, true, true];
    assert w[..4] == [true, true, false, true];
    assert w[..3] == [true, true, false];
    assert w[..2] == [true, true];
    assert w[..1] == [true];
    assert w[..1][..0] == [];
    assert w[..2][..1] == [true];
    assert w[..3][..2] == [true, true];
    assert w[..4][..3] == [true, true, false];
    assert [true, true, false][..2] == [true, true];
  }

  /** A sequence made only of wins is one run: current and record are its
      length. */
  lemma {:induction false} AllWinningIsOneRun(wins: seq<bool>)
    requires forall i :: 0 <= i < |wins| ==> wins[i]
    ensures TrailingRun(wins) == |wins| && LongestRun(wins) == |wins|
    decreases |wins|
  {
    if wins != [] {
      var n := |wins| - 1;
      assert forall i :: 0 <= i < n ==> wins[..n][i];
      AllWinningIsOneRun(wins[..n]);
    }
  }
}
