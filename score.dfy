/** The composite score, `compute_zylo_score` (app.py:2193-2280): five
    component scores from 0 to 100 (win rate, profit factor, average win
    over average loss, share of green days, drawdown relative to total
    P&L), combined with fixed weights and clamped. */
module Score {
  import opened Wrappers
  import opened Series
  import opened Equity

  /** `clamp01`: the value limited to [0, 1]. */
  function Clamp01(x: real): (r: real)
    ensures 0.0 <= r <= 1.0
    ensures 0.0 <= x <= 1.0 ==> r == x
    ensures x < 0.0 ==> r == 0.0
    ensures x > 1.0 ==> r == 1.0
  {
    if x > 1.0 then 1.0 else if x < 0.0 then 0.0 else x
  }

  /** `scale_linear`: where `value` sits between `lo` and `hi`, as a score
      from 0 to 100; 0 for an empty range. */
  function ScaleLinear(value: real, lo: real, hi: real): (r: real)
    ensures 0.0 <= r <= 100.0
    ensures hi == lo ==> r == 0.0
  {
    if hi == lo then 0.0 else Clamp01((value - lo) / (hi - lo)) * 100.0
  }

  /** On a rising range the score is 0 at or below `lo`, 100 at or above
      `hi`, and in between grows in proportion to `value - lo`. */
  lemma ScaleLinearOnRange(value: real, lo: real, hi: real)
    requires lo < hi
    ensures value <= lo ==> ScaleLinear(value, lo, hi) == 0.0
    ensures value >= hi ==> ScaleLinear(value, lo, hi) == 100.0
    ensures lo <= value <= hi ==> ScaleLinear(value, lo, hi) * (hi - lo) == (value - lo) * 100.0
  {
    var t := (value - lo) / (hi - lo);
    Quotient(value - lo, hi - lo);
    if value >= hi {
      RatioAgainstOne(value - lo, hi - lo);
    }
    if value <= hi {
      RatioAgainstOne(value - lo, hi - lo);
    }
  }

  /** A quotient by a positive number is at least 1 when the dividend is at
      least the divisor, and at most 1 when it is at most the divisor. */
  lemma RatioAgainstOne(a: real, b: real)
    requires b > 0.0
    ensures a >= b ==> a / b >= 1.0
    ensures a <= b ==> a / b <= 1.0
  {
    Quotient(a, b);
    if a / b < 1.0 {
      assert (a / b) * b < 1.0 * b;
    }
    if a / b > 1.0 {
      assert (a / b) * b > 1.0 * b;
    }
  }

  /** On a rising range a larger value never scores less. */
  lemma ScaleLinearMonotone(v1: real, v2: real, lo: real, hi: real)
    requires lo < hi && v1 <= v2
    ensures ScaleLinear(v1, lo, hi) <= ScaleLinear(v2, lo, hi)
  {
    Quotient(v2 - v1, hi - lo);
    assert (v2 - lo) / (hi - lo) == (v1 - lo) / (hi - lo) + (v2 - v1) / (hi - lo);
  }

  /** The raw figures behind the components. */
  datatype Raw = Raw(
    winRate: real, profitFactor: real, avgWinLoss: real, consistency: real,
    maxDrawdown: Option<real>, totalPnl: real)

  datatype Components = Components(
    winPct: real, profitFactor: real, avgWinLoss: real, consistency: real, maxDrawdown: real)

  datatype ZyloScore = ZyloScore(overall: real, components: Components, raw: Raw)

  /** Average win over the size of the average loss, 0 without losses. */
  function WinLossRatio(xs: seq<real>): (r: real)
    ensures r >= 0.0
    ensures LossCount(xs) == 0 ==> r == 0.0
  {
    var avgLoss := AverageLoss(xs);
    if avgLoss != 0.0 then Quotient(AverageWin(xs), -avgLoss); AverageWin(xs) / -avgLoss else 0.0
  }

  /** The score's profit factor: gross wins over the size of gross losses,
      and 0 (not infinity) when nothing was lost. */
  function ScoreProfitFactor(xs: seq<real>): (r: real)
    ensures r >= 0.0
    ensures Losses(xs) == 0.0 ==> r == 0.0
  {
    GainOverLoss(Gains(xs), Losses(xs))
  }

  /** `gains` over the size of `losses`, 0 when `losses` is 0. */
  function GainOverLoss(gains: real, losses: real): (r: real)
    requires gains >= 0.0 && losses <= 0.0
    ensures r >= 0.0
    ensures losses == 0.0 ==> r == 0.0
  {
    if losses != 0.0 then Quotient(gains, -losses); gains / -losses else 0.0
  }

  /** With some loss, the profit factor times the size of the gross loss is
      the gross win. */
  lemma ProfitFactorIsRatio(xs: seq<real>)
    requires Losses(xs) != 0.0
    ensures ScoreProfitFactor(xs) * -Losses(xs) == Gains(xs)
  {
    var gains, losses := Gains(xs), Losses(xs);
    assert ScoreProfitFactor(xs) == GainOverLoss(gains, losses);
    GainOverLossIsRatio(gains, losses);
  }

  lemma GainOverLossIsRatio(gains: real, losses: real)
    requires gains >= 0.0 && losses < 0.0
    ensures GainOverLoss(gains, losses) * -losses == gains
  {
    Quotient(gains, -losses);
  }

  /** The trade-by-trade drawdown. pandas' `cumsum`, `cummax` and `min`
      skip missing P&L, so the curve is that of the present trades; no
      trades give 0, and trades none of which has a P&L give NaN (None). */
  function ScoreDrawdown(trades: seq<Option<real>>): (r: Option<real>)
    ensures trades == [] ==> r == Some(0.0)
    ensures r.None? <==> trades != [] && Present(trades) == []
    ensures r.Some? ==> r.value >= 0.0
    ensures var eq := CumSum(Present(trades));
      r.Some? && eq != [] ==>
        && (forall i, j :: 0 <= j <= i < |eq| ==> eq[j] - eq[i] <= r.value)
        && (exists i, j :: 0 <= j <= i < |eq| && eq[j] - eq[i] == r.value)
  {
    if trades == [] then Some(0.0)
    else if Present(trades) == [] then None
    else
      MaxDrawdownIsLargestDecline(CumSum(Present(trades)));
      Some(DeepestDrawdown(CumSum(Present(trades))))
  }

  /** The raw figures: win rate over every trade, profit factor, win/loss
      ratio and total over the trades with a P&L, and the share of green
      days. */
  function RawFigures(trades: seq<Option<real>>, dailyPnl: seq<real>): (raw: Raw)
    ensures 0.0 <= raw.winRate <= 100.0 && 0.0 <= raw.consistency <= 100.0
    ensures raw.profitFactor >= 0.0 && raw.avgWinLoss >= 0.0
    ensures raw.totalPnl == Sum(Present(trades))
    ensures raw.maxDrawdown == ScoreDrawdown(trades)
  {
    var xs := Present(trades);
    Raw(
      winRate := WinRate(WinCount(xs), |trades|),
      profitFactor := ScoreProfitFactor(xs),
      avgWinLoss := WinLossRatio(xs),
      consistency := WinRate(WinCount(dailyPnl), |dailyPnl|),
      maxDrawdown := ScoreDrawdown(trades),
      totalPnl := Sum(xs))
  }

  /** The drawdown component: the drawdown as a share of the size of the
      total P&L, mapped so that no drawdown scores 100 and a drawdown of
      1.5 times the total or more scores 0. With a zero total it is 100
      when there is no drawdown and 0 otherwise, a missing drawdown
      counting as otherwise. */
  function DrawdownComponent(maxDrawdown: Option<real>, totalPnl: real): (r: real)
    requires totalPnl != 0.0 ==> maxDrawdown.Some?
    ensures 0.0 <= r <= 100.0
    ensures totalPnl == 0.0 ==> (r == 100.0 <==> maxDrawdown == Some(0.0))
    ensures totalPnl == 0.0 ==> (r == 0.0 <==> maxDrawdown != Some(0.0))
  {
    var size := if totalPnl < 0.0 then -totalPnl else totalPnl;
    if size > 0.0 then (1.0 - Clamp01(maxDrawdown.value / size / 1.5)) * 100.0
    else if maxDrawdown == Some(0.0) then 100.0 else 0.0
  }

  /** With a non-zero total, the drawdown component falls from 100 at no
      drawdown to 0 once the drawdown reaches 1.5 times the total's size. */
  lemma DrawdownComponentScale(dd: real, totalPnl: real)
    requires totalPnl != 0.0 && dd >= 0.0
    ensures dd == 0.0 ==> DrawdownComponent(Some(dd), totalPnl) == 100.0
    ensures var size := if totalPnl < 0.0 then -totalPnl else totalPnl;
      dd >= 1.5 * size ==> DrawdownComponent(Some(dd), totalPnl) == 0.0
  {
    var size := if totalPnl < 0.0 then -totalPnl else totalPnl;
    if dd >= 1.5 * size {
      QuotientAtLeast(dd, size, 1.5);
      RatioAgainstOne(dd / size, 1.5);
    }
  }

  /** A quotient by a positive number is at least `c` when the dividend is
      at least `c` times the divisor. */
  lemma QuotientAtLeast(a: real, b: real, c: real)
    requires b > 0.0 && a >= c * b
    ensures a / b >= c
  {
    Quotient(a, b);
  }

  /** The five component scores. */
  function ComponentsOf(raw: Raw): (c: Components)
    requires raw.totalPnl != 0.0 ==> raw.maxDrawdown.Some?
    ensures 0.0 <= c.winPct <= 100.0 && 0.0 <= c.profitFactor <= 100.0
    ensures 0.0 <= c.avgWinLoss <= 100.0 && 0.0 <= c.consistency <= 100.0
    ensures 0.0 <= c.maxDrawdown <= 100.0
  {
    Components(
      winPct := ScaleLinear(raw.winRate, 35.0, 70.0),
      profitFactor := ScaleLinear(raw.profitFactor, 1.0, 2.5),
      avgWinLoss := ScaleLinear(raw.avgWinLoss, 0.8, 2.5),
      consistency := ScaleLinear(raw.consistency, 40.0, 75.0),
      maxDrawdown := DrawdownComponent(raw.maxDrawdown, raw.totalPnl))
  }

  /** The weighted sum of the components. */
  function Weighted(c: Components): real {
    c.winPct * 0.24 + c.profitFactor * 0.22 + c.avgWinLoss * 0.18 + c.consistency * 0.18 + c.maxDrawdown * 0.18
  }

  /** The weights sum to 1, so components in [0, 100] give a weighted sum
      in [0, 100]. */
  lemma WeightedWithinRange(c: Components)
    requires 0.0 <= c.winPct <= 100.0 && 0.0 <= c.profitFactor <= 100.0
    requires 0.0 <= c.avgWinLoss <= 100.0 && 0.0 <= c.consistency <= 100.0
    requires 0.0 <= c.maxDrawdown <= 100.0
    ensures 0.0 <= Weighted(c) <= 100.0
  {
  }

  /** A present total P&L other than 0 means some trade has a P&L. */
  lemma NonZeroTotalHasTrades(trades: seq<Option<real>>)
    ensures Sum(Present(trades)) != 0.0 ==> Present(trades) != []
  {
  }

  /** `compute_zylo_score`: the overall score is the weighted sum of the
      components clamped to [0, 100]. */
  function ComputeZyloScore(trades: seq<Option<real>>, dailyPnl: seq<real>): (z: ZyloScore)
    ensures 0.0 <= z.overall <= 100.0
    ensures z.raw == RawFigures(trades, dailyPnl)
    ensures z.components == ComponentsOf(z.raw)
  {
    var raw := RawFigures(trades, dailyPnl);
    NonZeroTotalHasTrades(trades);
    var c := ComponentsOf(raw);
    var total := Weighted(c);
    ZyloScore(if total > 100.0 then 100.0 else if total < 0.0 then 0.0 else total, c, raw)
  }

  /** The final clamp never changes the weighted sum: the overall score is
      exactly the weighted sum of the components. */
  lemma OverallIsWeightedSum(trades: seq<Option<real>>, dailyPnl: seq<real>)
    ensures var z := ComputeZyloScore(trades, dailyPnl);
      z.overall == Weighted(z.components)
  {
    var z := ComputeZyloScore(trades, dailyPnl);
    WeightedWithinRange(z.components);
  }

  /** With no trades and no trading days every component is 0 except the
      drawdown one, which is 100: the overall score is 18. */
  lemma EmptyJournalScores18()
    ensures ComputeZyloScore([], []).overall == 18.0
  {
    var z := ComputeZyloScore([], []);
    var raw := RawFigures([], []);
    assert raw.winRate == 0.0 && raw.consistency == 0.0;
    assert raw.profitFactor == 0.0 && raw.avgWinLoss == 0.0;
    assert raw.maxDrawdown == Some(0.0) && raw.totalPnl == 0.0;
    ScaleLinearOnRange(0.0, 35.0, 70.0);
    ScaleLinearOnRange(0.0, 1.0, 2.5);
    ScaleLinearOnRange(0.0, 0.8, 2.5);
    ScaleLinearOnRange(0.0, 40.0, 75.0);
    OverallIsWeightedSum([], []);
  }

  /** Trades with no loss score 0 on the profit-factor axis, since the
      score takes the profit factor to be 0 when nothing was lost. */
  lemma NoLossesScoresZeroProfitFactor(trades: seq<Option<real>>, dailyPnl: seq<real>)
    requires forall i :: 0 <= i < |trades| && trades[i].Some? ==> trades[i].value >= 0.0
    ensures ComputeZyloScore(trades, dailyPnl).raw.profitFactor == 0.0
    ensures ComputeZyloScore(trades, dailyPnl).components.profitFactor == 0.0
  {
    PresentNonNegative(trades);
    assert ScoreProfitFactor(Present(trades)) == 0.0;
    var raw := RawFigures(trades, dailyPnl);
    assert raw.profitFactor == 0.0;
    ScaleLinearOnRange(0.0, 1.0, 2.5);
  }

  /** Dropping the missing entries of a column with no negative entry
      leaves no negative entry. */
  lemma {:induction false} PresentNonNegative(trades: seq<Option<real>>)
    requires forall i :: 0 <= i < |trades| && trades[i].Some? ==> trades[i].value >= 0.0
    ensures forall k :: 0 <= k < |Present(trades)| ==> Present(trades)[k] >= 0.0
    decreases |trades|
  {
    if trades != [] {
      var n := |trades| - 1;
      assert forall i :: 0 <= i < n ==> trades[..n][i] == trades[i];
      PresentNonNegative(trades[..n]);
      var rest := Present(trades[..n]);
      assert Present(trades) == if trades[n].Some? then rest + [trades[n].value] else rest;
    }
  }
}
