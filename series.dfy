/** Folds over a P&L column shared by the summary, the score and the
    equity curves: sums, the `fillna(0.0)` coercion, and the split of a
    column into winning and losing entries. */
module Series {
  import opened Wrappers

  /** Sum of a column, folded from the left as pandas does. */
  function Sum(xs: seq<real>): real
  {
    if xs == [] then 0.0 else Sum(xs[..|xs| - 1]) + xs[|xs| - 1]
  }

  /** The sum of a concatenation is the sum of the parts. */
  lemma {:induction false} SumAppend(xs: seq<real>, ys: seq<real>)
    ensures Sum(xs + ys) == Sum(xs) + Sum(ys)
    decreases |ys|
  {
    if ys == [] {
      assert xs + ys == xs;
    } else {
      var n := |ys| - 1;
      assert (xs + ys)[..|xs + ys| - 1] == xs + ys[..n];
      SumAppend(xs, ys[..n]);
    }
  }

  /** The sum of a one-element column. */
  lemma SumSingleton(x: real)
    ensures Sum([x]) == x
  {
    assert [x][..0] == [];
  }

  /** A column where every entry lies in [lo, hi] sums to between |xs| * lo
      and |xs| * hi. */
  lemma {:induction false} SumBounds(xs: seq<real>, lo: real, hi: real)
    requires forall i :: 0 <= i < |xs| ==> lo <= xs[i] <= hi
    ensures |xs| as real * lo <= Sum(xs) <= |xs| as real * hi
    decreases |xs|
  {
    if xs != [] {
      var n := |xs| - 1;
      SumBounds(xs[..n], lo, hi);
      assert |xs| as real * lo == n as real * lo + lo;
      assert |xs| as real * hi == n as real * hi + hi;
    }
  }

  /** `pd.to_numeric(..., errors="coerce").fillna(0.0)`: a missing or
      unparseable entry counts as 0. */
  function Filled(xs: seq<Option<real>>): (r: seq<real>)
    ensures |r| == |xs|
    ensures forall i :: 0 <= i < |xs| ==> r[i] == xs[i].GetOr(0.0)
  {
    seq(|xs|, i requires 0 <= i < |xs| => xs[i].GetOr(0.0))
  }

  /** The present entries of a column in order, as pandas' NaN-skipping
      reductions see them. */
  function Present(xs: seq<Option<real>>): (r: seq<real>)
    ensures |r| <= |xs|
    ensures r == [] <==> forall i :: 0 <= i < |xs| ==> xs[i].None?
  {
    if xs == [] then []
    else
      var rest := Present(xs[..|xs| - 1]);
      var last := xs[|xs| - 1];
      assert forall i :: 0 <= i < |xs| - 1 ==> xs[..|xs| - 1][i] == xs[i];
      if last.Some? then rest + [last.value] else rest
  }

  /** Sum of the strictly positive entries (`pnl[pnl > 0].sum()`): never
      negative, and 0 exactly when no entry is positive. */
  function Gains(xs: seq<real>): (r: real)
    ensures r >= 0.0
    ensures r == 0.0 <==> forall i :: 0 <= i < |xs| ==> xs[i] <= 0.0
  {
    if xs == [] then 0.0
    else
      var rest := Gains(xs[..|xs| - 1]);
      var x := xs[|xs| - 1];
      assert forall i :: 0 <= i < |xs| - 1 ==> xs[..|xs| - 1][i] == xs[i];
      if x > 0.0 then rest + x else rest
  }

  /** Sum of the strictly negative entries (`pnl[pnl < 0].sum()`): never
      positive, and 0 exactly when no entry is negative. */
  function Losses(xs: seq<real>): (r: real)
    ensures r <= 0.0
    ensures r == 0.0 <==> forall i :: 0 <= i < |xs| ==> xs[i] >= 0.0
  {
    if xs == [] then 0.0
    else
      var rest := Losses(xs[..|xs| - 1]);
      var x := xs[|xs| - 1];
      assert forall i :: 0 <= i < |xs| - 1 ==> xs[..|xs| - 1][i] == xs[i];
      if x < 0.0 then rest + x else rest
  }

  /** Wins and losses partition the total: flat entries add nothing. */
  lemma {:induction false} GainsPlusLosses(xs: seq<real>)
    ensures Gains(xs) + Losses(xs) == Sum(xs)
    decreases |xs|
  {
    if xs != [] {
      GainsPlusLosses(xs[..|xs| - 1]);
    }
  }

  /** Number of strictly positive entries (`(pnl > 0).sum()`). */
  function WinCount(xs: seq<real>): (n: nat)
    ensures n <= |xs|
    ensures n == 0 <==> forall i :: 0 <= i < |xs| ==> xs[i] <= 0.0
  {
    if xs == [] then 0
    else
      var rest := WinCount(xs[..|xs| - 1]);
      assert forall i :: 0 <= i < |xs| - 1 ==> xs[..|xs| - 1][i] == xs[i];
      if xs[|xs| - 1] > 0.0 then rest + 1 else rest
  }

  /** Number of strictly negative entries. */
  function LossCount(xs: seq<real>): (n: nat)
    ensures n <= |xs|
    ensures n == 0 <==> forall i :: 0 <= i < |xs| ==> xs[i] >= 0.0
  {
    if xs == [] then 0
    else
      var rest := LossCount(xs[..|xs| - 1]);
      assert forall i :: 0 <= i < |xs| - 1 ==> xs[..|xs| - 1][i] == xs[i];
      if xs[|xs| - 1] < 0.0 then rest + 1 else rest
  }

  /** A win and a loss are never the same entry. */
  lemma {:induction false} WinsAndLossesDisjoint(xs: seq<real>)
    ensures WinCount(xs) + LossCount(xs) <= |xs|
    decreases |xs|
  {
    if xs != [] {
      WinsAndLossesDisjoint(xs[..|xs| - 1]);
    }
  }

  /** Share of entries that are wins, as a percentage; 0 for no entries. */
  function WinRate(wins: nat, total: nat): (r: real)
    requires wins <= total
    ensures 0.0 <= r <= 100.0
    ensures total == 0 ==> r == 0.0
  {
    if total > 0 then Quotient(wins as real, total as real); wins as real / total as real * 100.0 else 0.0
  }

  /** The win rate is the winning share of the entries, in percent. */
  lemma WinRateIsShare(wins: nat, total: nat)
    requires wins <= total && total > 0
    ensures WinRate(wins, total) * total as real == wins as real * 100.0
  {
    Quotient(wins as real, total as real);
  }

  /** `total / count`, 0 for no entries; it has the sign of `total`. */
  function Mean(total: real, count: nat): (r: real)
    ensures count == 0 ==> r == 0.0
    ensures total >= 0.0 ==> r >= 0.0
    ensures total <= 0.0 ==> r <= 0.0
    ensures count > 0 && total < 0.0 ==> r < 0.0
  {
    if count > 0 then Quotient(total, count as real); total / count as real else 0.0
  }

  /** The mean times the number of entries is the total. */
  lemma MeanTimesCount(total: real, count: nat)
    requires count > 0
    ensures Mean(total, count) * count as real == total
  {
    Quotient(total, count as real);
  }

  /** Mean of the positive entries (`wins_df.mean()`), 0 when there are none. */
  function AverageWin(xs: seq<real>): (r: real)
    ensures r >= 0.0
    ensures WinCount(xs) == 0 ==> r == 0.0
  {
    Mean(Gains(xs), WinCount(xs))
  }

  /** Mean of the negative entries (`losses_df.mean()`), 0 when there are
      none and negative otherwise. */
  function AverageLoss(xs: seq<real>): (r: real)
    ensures r <= 0.0
    ensures LossCount(xs) == 0 <==> r == 0.0
  {
    Mean(Losses(xs), LossCount(xs))
  }

  /** The average win times the number of wins is the gross win. */
  lemma AverageWinIsMean(xs: seq<real>)
    requires WinCount(xs) > 0
    ensures AverageWin(xs) * WinCount(xs) as real == Gains(xs)
  {
    var total, count := Gains(xs), WinCount(xs);
    assert AverageWin(xs) == Mean(total, count);
    MeanTimesCount(total, count);
  }

  /** The average loss times the number of losses is the gross loss. */
  lemma AverageLossIsMean(xs: seq<real>)
    requires LossCount(xs) > 0
    ensures AverageLoss(xs) * LossCount(xs) as real == Losses(xs)
  {
    var total, count := Losses(xs), LossCount(xs);
    assert AverageLoss(xs) == Mean(total, count);
    MeanTimesCount(total, count);
  }

  /** Division by a positive number keeps the sign and multiplies back. */
  lemma Quotient(a: real, b: real)
    requires b > 0.0
    ensures (a / b) * b == a
    ensures a >= 0.0 ==> a / b >= 0.0
    ensures a <= 0.0 ==> a / b <= 0.0
    ensures a < 0.0 ==> a / b < 0.0
  {
  }
}
