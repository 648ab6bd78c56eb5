/** Equity curves: the running balance of a P&L column, its running peak,
    the drawdown from that peak, the five-period smoothing shown on the
    daily chart (app.py:3517-3522, 772-777), `_max_drawdown`
    (app.py:2350-2356) and `_profit_factor` (app.py:2359-2365). Rows are
    taken in date order. */
module Equity {
  import opened Wrappers
  import opened Series

  /** `cumsum()`: each entry adds its P&L to the balance before it. */
  function CumSum(xs: seq<real>): (eq: seq<real>)
    ensures |eq| == |xs|
  {
    if xs == [] then []
    else
      var before := CumSum(xs[..|xs| - 1]);
      before + [(if before == [] then 0.0 else before[|before| - 1]) + xs[|xs| - 1]]
  }

  /** The balance after row i is the sum of the first i + 1 rows, and
      successive differences give the P&L column back. */
  lemma CumSumIsPrefixSum(xs: seq<real>)
    ensures forall i :: 0 <= i < |xs| ==> CumSum(xs)[i] == Sum(xs[..i + 1])
    ensures |xs| > 0 ==> CumSum(xs)[0] == xs[0]
    ensures forall i :: 0 < i < |xs| ==> CumSum(xs)[i] - CumSum(xs)[i - 1] == xs[i]
  {
    PrefixSums(xs);
    if |xs| > 0 {
      assert xs[..1] == [xs[0]];
      SumSingleton(xs[0]);
    }
    forall i | 0 < i < |xs|
      ensures CumSum(xs)[i] - CumSum(xs)[i - 1] == xs[i]
    {
      var before, upTo := xs[..i], xs[..i + 1];
      assert upTo[..|upTo| - 1] == before && upTo[|upTo| - 1] == xs[i];
      assert Sum(upTo) == Sum(before) + xs[i];
      assert CumSum(xs)[i] == Sum(upTo) && CumSum(xs)[i - 1] == Sum(before);
    }
  }

  lemma {:induction false} PrefixSums(xs: seq<real>)
    ensures forall i :: 0 <= i < |xs| ==> CumSum(xs)[i] == Sum(xs[..i + 1])
    decreases |xs|
  {
    if xs != [] {
      var n := |xs| - 1;
      PrefixSums(xs[..n]);
      forall i | 0 <= i < |xs|
        ensures CumSum(xs)[i] == Sum(xs[..i + 1])
      {
        if i < n {
          assert xs[..n][..i + 1] == xs[..i + 1];
        } else {
          assert xs[..i + 1] == xs;
          if n > 0 {
            assert xs[..n][..n - 1 + 1] == xs[..n];
          } else {
            assert xs[..0] == [];
          }
        }
      }
    }
  }

  /** The last balance of the curve is the total P&L. */
  lemma FinalBalanceIsTotal(xs: seq<real>)
    requires xs != []
    ensures CumSum(xs)[|xs| - 1] == Sum(xs)
  {
    CumSumIsPrefixSum(xs);
    assert xs[..|xs|] == xs;
  }

  /** `cummax()`: the peak so far, starting at the first entry rather
      than at 0. */
  function RunningMax(xs: seq<real>): (pk: seq<real>)
    ensures |pk| == |xs|
  {
    if xs == [] then []
    else
      var before := RunningMax(xs[..|xs| - 1]);
      var x := xs[|xs| - 1];
      before + [if before == [] || x > before[|before| - 1] then x else before[|before| - 1]]
  }

  /** Each running peak is at least every entry up to it and equals one of
      them, the first peak is the first entry, and peaks never fall. */
  lemma {:induction false} RunningMaxIsPrefixMax(xs: seq<real>)
    ensures forall i, j :: 0 <= j <= i < |xs| ==> xs[j] <= RunningMax(xs)[i]
    ensures forall i :: 0 <= i < |xs| ==> exists j :: 0 <= j <= i && RunningMax(xs)[i] == xs[j]
    ensures |xs| > 0 ==> RunningMax(xs)[0] == xs[0]
    ensures forall i, j :: 0 <= i <= j < |xs| ==> RunningMax(xs)[i] <= RunningMax(xs)[j]
    decreases |xs|
  {
    if xs != [] {
      var n := |xs| - 1;
      var pk := RunningMax(xs);
      RunningMaxIsPrefixMax(xs[..n]);
      assert forall i :: 0 <= i < n ==> pk[i] == RunningMax(xs[..n])[i];
      assert forall j :: 0 <= j < n ==> xs[..n][j] == xs[j];
      forall i | 0 <= i < |xs|
        ensures exists j :: 0 <= j <= i && pk[i] == xs[j]
      {
        if i < n {
          var j :| 0 <= j <= i && RunningMax(xs[..n])[i] == xs[..n][j];
          assert pk[i] == xs[j];
        } else if n > 0 && pk[n] == pk[n - 1] {
          var j :| 0 <= j <= n - 1 && RunningMax(xs[..n])[n - 1] == xs[..n][j];
          assert pk[i] == xs[j];
        } else {
          assert pk[i] == xs[n];
        }
      }
    }
  }

  /** `equity - peak`. */
  function Drawdown(eq: seq<real>): (dd: seq<real>)
    ensures |dd| == |eq|
  {
    var pk := RunningMax(eq);
    seq(|eq|, i requires 0 <= i < |eq| => eq[i] - pk[i])
  }

  /** A drawdown is never positive, and at each row it is the fall from the
      highest balance reached so far. */
  lemma DrawdownIsFallFromPeak(eq: seq<real>)
    ensures forall i :: 0 <= i < |eq| ==> Drawdown(eq)[i] <= 0.0
    ensures forall i, j :: 0 <= j <= i < |eq| ==> Drawdown(eq)[i] <= eq[i] - eq[j]
    ensures forall i :: 0 <= i < |eq| ==> exists j :: 0 <= j <= i && Drawdown(eq)[i] == eq[i] - eq[j]
  {
    RunningMaxIsPrefixMax(eq);
    var pk, dd := RunningMax(eq), Drawdown(eq);
    forall i | 0 <= i < |eq|
      ensures dd[i] <= 0.0
      ensures forall j :: 0 <= j <= i ==> dd[i] <= eq[i] - eq[j]
      ensures exists j :: 0 <= j <= i && dd[i] == eq[i] - eq[j]
    {
      assert dd[i] == eq[i] - pk[i];
      assert eq[i] <= pk[i];
      var j :| 0 <= j <= i && pk[i] == eq[j];
      assert dd[i] == eq[i] - eq[j];
    }
  }

  /** Each drawdown is the balance less its running peak, and never
      positive. */
  lemma DrawdownBelowPeak(eq: seq<real>)
    ensures forall i :: 0 <= i < |eq| ==> Drawdown(eq)[i] == eq[i] - RunningMax(eq)[i] <= 0.0
  {
    RunningMaxIsPrefixMax(eq);
  }

  /** Smallest entry of a non-empty column (`min()`). */
  function MinOf(xs: seq<real>): (m: real)
    requires xs != []
    ensures forall i :: 0 <= i < |xs| ==> m <= xs[i]
    ensures exists i :: 0 <= i < |xs| && m == xs[i]
  {
    if |xs| == 1 then xs[0]
    else
      var rest := MinOf(xs[..|xs| - 1]);
      assert forall i :: 0 <= i < |xs| - 1 ==> xs[..|xs| - 1][i] == xs[i];
      if xs[|xs| - 1] < rest then xs[|xs| - 1] else rest
  }

  /** Largest entry of a non-empty column (`max()`). */
  function MaxOf(xs: seq<real>): (m: real)
    requires xs != []
    ensures forall i :: 0 <= i < |xs| ==> xs[i] <= m
    ensures exists i :: 0 <= i < |xs| && m == xs[i]
  {
    if |xs| == 1 then xs[0]
    else
      var rest := MaxOf(xs[..|xs| - 1]);
      assert forall i :: 0 <= i < |xs| - 1 ==> xs[..|xs| - 1][i] == xs[i];
      if xs[|xs| - 1] > rest then xs[|xs| - 1] else rest
  }

  /** `abs(drawdown.min())` for a non-empty curve, 0 for an empty one. */
  function DeepestDrawdown(eq: seq<real>): (r: real)
  {
    if eq == [] then 0.0
    else
      var m := MinOf(Drawdown(eq));
      if m < 0.0 then -m else m
  }

  /** The deepest drawdown is the largest peak-to-trough decline of the
      balance: no earlier balance exceeds a later one by more, and some
      pair of rows falls by exactly that much. */
  lemma MaxDrawdownIsLargestDecline(eq: seq<real>)
    requires eq != []
    ensures DeepestDrawdown(eq) >= 0.0
    ensures forall i, j :: 0 <= j <= i < |eq| ==> eq[j] - eq[i] <= DeepestDrawdown(eq)
    ensures exists i, j :: 0 <= j <= i < |eq| && eq[j] - eq[i] == DeepestDrawdown(eq)
  {
    DrawdownIsFallFromPeak(eq);
    var dd := Drawdown(eq);
    var m := MinOf(dd);
    assert m <= dd[0] <= 0.0;
    assert DeepestDrawdown(eq) == -m;
    forall i, j | 0 <= j <= i < |eq|
      ensures eq[j] - eq[i] <= -m
    {
      assert m <= dd[i] <= eq[i] - eq[j];
    }
    var i :| 0 <= i < |dd| && m == dd[i];
    var j :| 0 <= j <= i && dd[i] == eq[i] - eq[j];
    assert eq[j] - eq[i] == -m;
  }

  /** `_max_drawdown`: the balance column is coerced with `fillna(0.0)`;
      an empty column has no drawdown, and otherwise the result is the
      largest fall from an earlier balance to a later one. */
  function MaxDrawdown(equity: seq<Option<real>>): (r: real)
    ensures r >= 0.0
    ensures equity == [] ==> r == 0.0
    ensures var eq := Filled(equity);
      && (forall i, j :: 0 <= j <= i < |eq| ==> eq[j] - eq[i] <= r)
      && (eq != [] ==> exists i, j :: 0 <= j <= i < |eq| && eq[j] - eq[i] == r)
  {
    if equity == [] then 0.0
    else
      MaxDrawdownIsLargestDecline(Filled(equity));
      DeepestDrawdown(Filled(equity))
  }

  /** A balance that never falls has no drawdown. */
  lemma NonDecreasingHasNoDrawdown(eq: seq<real>)
    requires forall i, j :: 0 <= j <= i < |eq| ==> eq[j] <= eq[i]
    ensures DeepestDrawdown(eq) == 0.0
  {
    if eq != [] {
      MaxDrawdownIsLargestDecline(eq);
      var i, j :| 0 <= j <= i < |eq| && eq[j] - eq[i] == DeepestDrawdown(eq);
    }
  }

  /** The profit factor when it is defined. */
  datatype Factor = Finite(ratio: real) | Infinite

  /** `_profit_factor`: gross wins over gross losses after `fillna(0.0)`;
      None with neither wins nor losses, infinite with wins and no losses. */
  function ProfitFactor(pnl: seq<Option<real>>): (r: Option<Factor>)
    ensures var xs := Filled(pnl);
      && (r.None? <==> forall i :: 0 <= i < |xs| ==> xs[i] == 0.0)
      && (r == Some(Infinite) <==>
            (exists i :: 0 <= i < |xs| && xs[i] > 0.0) && (forall i :: 0 <= i < |xs| ==> xs[i] >= 0.0))
      && (r.Some? && r.value.Finite? ==>
            && (exists i :: 0 <= i < |xs| && xs[i] < 0.0)
            && r.value.ratio >= 0.0
            && r.value.ratio * -Losses(xs) == Gains(xs))
  {
    var xs := Filled(pnl);
    var wins, losses := Gains(xs), Losses(xs);
    if losses == 0.0 then (if wins == 0.0 then None else Some(Infinite))
    else Quotient(wins, -losses); Some(Finite(wins / -losses))
  }

  /** First row of the trailing window of a `rolling(5, min_periods=1)`. */
  function WindowStart(i: nat): nat {
    if i >= 4 then i - 4 else 0
  }

  /** `rolling(5, min_periods=1).mean()`: the mean of the last five
      balances, or of all of them before the fifth row. */
  function Smooth(eq: seq<real>): (sm: seq<real>)
    ensures |sm| == |eq|
  {
    seq(|eq|, i requires 0 <= i < |eq| => Sum(eq[WindowStart(i)..i + 1]) / (i + 1 - WindowStart(i)) as real)
  }

  /** Each smoothed value lies between the smallest and the largest balance
      of its window. */
  lemma SmoothWithinWindow(eq: seq<real>, i: nat)
    requires i < |eq|
    ensures var w := eq[WindowStart(i)..i + 1];
      MinOf(w) <= Smooth(eq)[i] <= MaxOf(w)
  {
    var w := eq[WindowStart(i)..i + 1];
    assert Smooth(eq)[i] == Sum(w) / |w| as real;
    MeanWithinRange(w);
  }

  /** The mean of a non-empty column lies between its smallest and its
      largest entry. */
  lemma MeanWithinRange(w: seq<real>)
    requires w != []
    ensures MinOf(w) <= Sum(w) / |w| as real <= MaxOf(w)
  {
    MeanOfBounded(w, MinOf(w), MaxOf(w));
  }

  /** A non-empty column whose entries lie in [lo, hi] has its mean there
      too. */
  lemma MeanOfBounded(w: seq<real>, lo: real, hi: real)
    requires w != []
    requires forall i :: 0 <= i < |w| ==> lo <= w[i] <= hi
    ensures lo <= Sum(w) / |w| as real <= hi
  {
    SumBounds(w, lo, hi);
    MeanBetween(Sum(w), |w| as real, lo, hi);
  }

  /** The smoothed curve starts at the first balance. */
  lemma SmoothStartsAtFirstBalance(eq: seq<real>)
    requires eq != []
    ensures Smooth(eq)[0] == eq[0]
  {
    SumSingleton(eq[0]);
    assert eq[0..1] == [eq[0]];
  }

  /** If n * lo <= s <= n * hi for a positive n, then lo <= s / n <= hi. */
  lemma MeanBetween(s: real, n: real, lo: real, hi: real)
    requires n > 0.0 && n * lo <= s <= n * hi
    ensures lo <= s / n <= hi
  {
    Quotient(s - n * lo, n);
    Quotient(n * hi - s, n);
    assert (s - n * lo) / n == s / n - lo;
    assert (n * hi - s) / n == hi - s / n;
  }

  /** The daily equity chart (app.py:3517-3522): balance, smoothed
      balance, peak and drawdown, one entry per trading day. */
  datatype Curves = Curves(equity: seq<real>, smooth: seq<real>, peak: seq<real>, drawdown: seq<real>)

  function DailyCurves(dailyPnl: seq<real>): (c: Curves)
    ensures |c.equity| == |c.smooth| == |c.peak| == |c.drawdown| == |dailyPnl|
    ensures c.equity == CumSum(dailyPnl)
    ensures c.peak == RunningMax(c.equity)
    ensures c.smooth == Smooth(c.equity)
    ensures c.drawdown == Drawdown(c.equity)
    ensures forall i :: 0 <= i < |dailyPnl| ==> c.equity[i] == Sum(dailyPnl[..i + 1])
  {
    var eq := CumSum(dailyPnl);
    CumSumIsPrefixSum(dailyPnl);
    Curves(eq, Smooth(eq), RunningMax(eq), Drawdown(eq))
  }

  /** What the daily chart shows: each peak is the highest balance so far,
      each drawdown the fall from it, and each smoothed value lies within
      the range of its five-day window. */
  lemma DailyCurvesMeaning(dailyPnl: seq<real>, i: nat)
    requires i < |dailyPnl|
    ensures var c := DailyCurves(dailyPnl);
      && (forall j :: 0 <= j <= i ==> c.equity[j] <= c.peak[i])
      && (exists j :: 0 <= j <= i && c.peak[i] == c.equity[j])
      && c.drawdown[i] == c.equity[i] - c.peak[i] <= 0.0
      && MinOf(c.equity[WindowStart(i)..i + 1]) <= c.smooth[i] <= MaxOf(c.equity[WindowStart(i)..i + 1])
  {
    var eq := CumSum(dailyPnl);
    RunningMaxIsPrefixMax(eq);
    DrawdownBelowPeak(eq);
    SmoothWithinWindow(eq, i);
  }
}
