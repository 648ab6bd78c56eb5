/** `summarize_performance` (app.py:2368-2410): trade counts, win rate,
    total and average P&L, profit factor, the deepest drawdown of the
    trade-by-trade balance, and the best and worst trading days. */
module Summary {
  import opened Wrappers
  import opened Clock
  import opened Series
  import opened Equity

  /** A journal row as the summary reads it: its trading day, None when the
      date does not parse, and its P&L, None when missing. */
  datatype TradeRow = TradeRow(day: Option<Date>, pnl: Option<real>)

  /** Calendar order on dates. */
  predicate Before(a: Date, b: Date) {
    || a.year < b.year
    || (a.year == b.year && a.month < b.month)
    || (a.year == b.year && a.month == b.month && a.day < b.day)
  }

  /** One row of the daily breakdown. */
  datatype DayTotal = DayTotal(day: Date, pnl: real)

  /** Days listed once each, in calendar order, as `groupby` lists them. */
  predicate StrictlySorted(g: seq<DayTotal>) {
    forall i, j :: 0 <= i < j < |g| ==> Before(g[i].day, g[j].day)
  }

  /** The days listed. */
  function Days(g: seq<DayTotal>): set<Date> {
    set i | 0 <= i < |g| :: g[i].day
  }

  /** What the breakdown records for day `d`: 0 when the day is absent. */
  function TotalOn(g: seq<DayTotal>, d: Date): real {
    if g == [] then 0.0 else (if g[0].day == d then g[0].pnl else 0.0) + TotalOn(g[1..], d)
  }

  /** Sum of every listed day. */
  function GrandTotal(g: seq<DayTotal>): real {
    if g == [] then 0.0 else g[0].pnl + GrandTotal(g[1..])
  }

  /** Books `p` on day `d`: added to the day's total when it is listed,
      otherwise a new day inserted in calendar order. */
  function AddToDay(g: seq<DayTotal>, d: Date, p: real): (r: seq<DayTotal>)
    ensures r != []
  {
    if g == [] then [DayTotal(d, p)]
    else if g[0].day == d then [DayTotal(d, g[0].pnl + p)] + g[1..]
    else if Before(d, g[0].day) then [DayTotal(d, p)] + g
    else [g[0]] + AddToDay(g[1..], d, p)
  }

  /** Booking keeps the days in strict calendar order and adds exactly `d`
      to the days listed. */
  lemma {:induction false} AddToDayKeepsOrder(g: seq<DayTotal>, d: Date, p: real)
    requires StrictlySorted(g)
    ensures StrictlySorted(AddToDay(g, d, p))
    ensures Days(AddToDay(g, d, p)) == Days(g) + {d}
    decreases |g|
  {
    var r := AddToDay(g, d, p);
    if g == [] {
      DaysCons(DayTotal(d, p), []);
      assert r == [DayTotal(d, p)] + [];
    } else {
      assert g == [g[0]] + g[1..];
      DaysCons(g[0], g[1..]);
      HeadBeforeRest(g);
      if g[0].day == d {
        var x := DayTotal(d, g[0].pnl + p);
        assert r == [x] + g[1..];
        DaysCons(x, g[1..]);
        SortedCons(x, g[1..]);
      } else if Before(d, g[0].day) {
        var x := DayTotal(d, p);
        assert r == [x] + g;
        DaysCons(x, g);
        SortedCons(x, g);
      } else {
        var tail := AddToDay(g[1..], d, p);
        AddToDayKeepsOrder(g[1..], d, p);
        assert r == [g[0]] + tail;
        DaysCons(g[0], tail);
        SortedCons(g[0], tail);
      }
    }
  }

  /** The days of a row followed by a breakdown. */
  lemma DaysCons(x: DayTotal, g: seq<DayTotal>)
    ensures Days([x] + g) == {x.day} + Days(g)
  {
    var r := [x] + g;
    forall y | y in Days(r) ensures y in {x.day} + Days(g) {
      var i :| 0 <= i < |r| && r[i].day == y;
      if i > 0 { assert g[i - 1].day == y; }
    }
    forall y | y in Days(g) ensures y in Days(r) {
      var i :| 0 <= i < |g| && g[i].day == y;
      assert r[i + 1].day == y;
    }
    assert r[0].day == x.day;
  }

  /** A row dated before every day of a sorted breakdown can lead it. */
  lemma SortedCons(x: DayTotal, g: seq<DayTotal>)
    requires StrictlySorted(g)
    requires forall y :: y in Days(g) ==> Before(x.day, y)
    ensures StrictlySorted([x] + g)
  {
    var r := [x] + g;
    forall i, j | 0 <= i < j < |r| ensures Before(r[i].day, r[j].day) {
      assert r[j] == g[j - 1];
      if i == 0 {
        assert g[j - 1].day in Days(g);
      } else {
        assert r[i] == g[i - 1];
      }
    }
  }

  /** The first day of a sorted breakdown comes before all the others,
      which are sorted in turn. */
  lemma HeadBeforeRest(g: seq<DayTotal>)
    requires g != [] && StrictlySorted(g)
    ensures StrictlySorted(g[1..])
    ensures forall y :: y in Days(g[1..]) ==> Before(g[0].day, y)
  {
    forall y | y in Days(g[1..]) ensures Before(g[0].day, y) {
      var i :| 0 <= i < |g[1..]| && g[1..][i].day == y;
      assert g[1..][i] == g[i + 1];
    }
  }

  /** Booking adds `p` to day `d`'s total, and to the grand total, and to
      nothing else. */
  lemma {:induction false} AddToDayBooks(g: seq<DayTotal>, d: Date, p: real, e: Date)
    ensures TotalOn(AddToDay(g, d, p), e) == TotalOn(g, e) + (if e == d then p else 0.0)
    ensures GrandTotal(AddToDay(g, d, p)) == GrandTotal(g) + p
    decreases |g|
  {
    var r := AddToDay(g, d, p);
    if g == [] {
      assert r[1..] == [];
    } else if g[0].day == d {
      assert r[1..] == g[1..];
    } else if Before(d, g[0].day) {
      assert r[1..] == g;
    } else {
      AddToDayBooks(g[1..], d, p, e);
      assert r[1..] == AddToDay(g[1..], d, p);
    }
  }

  /** P&L of row `i` as the summary counts it (`fillna(0.0)`). */
  function RowPnl(rows: seq<TradeRow>, i: nat): real
    requires i < |rows|
  {
    rows[i].pnl.GetOr(0.0)
  }

  /** Sum of the P&L of the rows dated `d`. */
  function DaySum(rows: seq<TradeRow>, d: Date): real {
    if rows == [] then 0.0
    else DaySum(rows[..|rows| - 1], d) + (if rows[|rows| - 1].day == Some(d) then RowPnl(rows, |rows| - 1) else 0.0)
  }

  /** Sum of the P&L of the rows with a date. */
  function DatedSum(rows: seq<TradeRow>): real {
    if rows == [] then 0.0
    else DatedSum(rows[..|rows| - 1]) + (if rows[|rows| - 1].day.Some? then RowPnl(rows, |rows| - 1) else 0.0)
  }

  /** The dates that parse. */
  function DatedDays(rows: seq<TradeRow>): set<Date> {
    set i | 0 <= i < |rows| && rows[i].day.Some? :: rows[i].day.value
  }

  /** `groupby("day")[pnl].sum()`: one total per dated day, rows without a
      date dropped. */
  function GroupByDay(rows: seq<TradeRow>): (g: seq<DayTotal>)
    ensures StrictlySorted(g)
    ensures Days(g) == DatedDays(rows)
  {
    if rows == [] then []
    else
      var n := |rows| - 1;
      var before := GroupByDay(rows[..n]);
      assert DatedDays(rows[..n]) == set i | 0 <= i < n && rows[i].day.Some? :: rows[i].day.value by {
        assert forall i :: 0 <= i < n ==> rows[..n][i] == rows[i];
      }
      if rows[n].day.None? then
        before
      else
        AddToDayKeepsOrder(before, rows[n].day.value, RowPnl(rows, n));
        AddToDay(before, rows[n].day.value, RowPnl(rows, n))
  }

  /** Each day's total is the sum of that day's rows, and the breakdown
      loses nothing: its grand total is the P&L of every dated row. */
  lemma {:induction false} GroupByDaySums(rows: seq<TradeRow>, d: Date)
    ensures TotalOn(GroupByDay(rows), d) == DaySum(rows, d)
    ensures GrandTotal(GroupByDay(rows)) == DatedSum(rows)
    decreases |rows|
  {
    if rows != [] {
      var n := |rows| - 1;
      GroupByDaySums(rows[..n], d);
      assert forall i :: 0 <= i < n ==> rows[..n][i] == rows[i];
      if rows[n].day.Some? {
        AddToDayBooks(GroupByDay(rows[..n]), rows[n].day.value, RowPnl(rows, n), d);
      }
    }
  }

  /** In a strictly sorted breakdown a listed day's total is its entry. */
  lemma {:induction false} TotalOnListedDay(g: seq<DayTotal>, i: nat)
    requires StrictlySorted(g) && i < |g|
    ensures TotalOn(g, g[i].day) == g[i].pnl
    decreases |g|
  {
    if i == 0 {
      NotListed(g[1..], g[0].day);
    } else {
      assert g[0].day != g[i].day;
      assert g[1..][i - 1] == g[i];
      TotalOnListedDay(g[1..], i - 1);
    }
  }

  /** A breakdown whose days all come after `d` records nothing on `d`. */
  lemma {:induction false} NotListed(g: seq<DayTotal>, d: Date)
    requires StrictlySorted(g)
    requires forall i :: 0 <= i < |g| ==> Before(d, g[i].day)
    ensures TotalOn(g, d) == 0.0
    decreases |g|
  {
    if g != [] {
      assert g[0].day != d;
      NotListed(g[1..], d);
    }
  }

  /** A breakdown lists no day exactly when it is empty. */
  lemma NoDaysIffEmpty(g: seq<DayTotal>)
    ensures Days(g) == {} <==> g == []
  {
    if g != [] {
      assert g[0].day in Days(g);
    }
  }

  /** The first day with the highest total (`sort_values("pnl",
      ascending=False).iloc[0]`). */
  function BestDay(g: seq<DayTotal>): (b: DayTotal)
    requires g != []
    ensures b in g
    ensures forall i :: 0 <= i < |g| ==> g[i].pnl <= b.pnl
  {
    if |g| == 1 then g[0]
    else
      var rest := BestDay(g[1..]);
      assert forall i :: 1 <= i < |g| ==> g[i] == g[1..][i - 1];
      if g[0].pnl >= rest.pnl then g[0] else rest
  }

  /** The first day with the lowest total. */
  function WorstDay(g: seq<DayTotal>): (w: DayTotal)
    requires g != []
    ensures w in g
    ensures forall i :: 0 <= i < |g| ==> w.pnl <= g[i].pnl
  {
    if |g| == 1 then g[0]
    else
      var rest := WorstDay(g[1..]);
      assert forall i :: 1 <= i < |g| ==> g[i] == g[1..][i - 1];
      if g[0].pnl <= rest.pnl then g[0] else rest
  }

  /** The headline figures over the P&L column. */
  datatype Headline = Headline(
    totalTrades: nat, wins: nat, winRate: real, totalPnl: real, avgWin: real, avgLoss: real)

  datatype Report = Report(
    headline: Headline, profitFactor: Option<Factor>, maxDrawdown: real,
    bestDay: Option<DayTotal>, worstDay: Option<DayTotal>)

  /** Wins are counted over every row, a missing P&L counting as flat; the
      win rate is their share as a percentage (`WinRateIsShare`); the total
      splits into gross wins and gross losses; and the averages are the means
      of the wins and of the losses (`AverageWinIsMean`, `AverageLossIsMean`). */
  function HeadlineOf(xs: seq<real>): (h: Headline)
    ensures h.totalTrades == |xs| && h.wins == WinCount(xs) <= |xs|
    ensures 0.0 <= h.winRate <= 100.0
    ensures h.totalPnl == Gains(xs) + Losses(xs)
    ensures h.winRate == WinRate(h.wins, h.totalTrades)
    ensures h.avgWin == AverageWin(xs) && h.avgLoss == AverageLoss(xs)
  {
    GainsPlusLosses(xs);
    Headline(|xs|, WinCount(xs), WinRate(WinCount(xs), |xs|), Sum(xs), AverageWin(xs), AverageLoss(xs))
  }

  /** The P&L column after `fillna(0.0)`. */
  function PnlColumn(rows: seq<TradeRow>): (xs: seq<real>)
    ensures |xs| == |rows|
    ensures forall i :: 0 <= i < |rows| ==> xs[i] == RowPnl(rows, i)
  {
    seq(|rows|, i requires 0 <= i < |rows| => RowPnl(rows, i))
  }

  /** Every entry present. */
  function AllPresent(xs: seq<real>): (r: seq<Option<real>>)
    ensures Filled(r) == xs
  {
    var r := seq(|xs|, i requires 0 <= i < |xs| => Some(xs[i]));
    assert Filled(r) == xs;
    r
  }

  /** The P&L column as read, before coercion. */
  function PnlAsRead(rows: seq<TradeRow>): (r: seq<Option<real>>)
    ensures |r| == |rows|
    ensures Filled(r) == PnlColumn(rows)
  {
    seq(|rows|, i requires 0 <= i < |rows| => rows[i].pnl)
  }

  /** The summary: headline figures over every row, the profit factor,
      the deepest drawdown of the trade-by-trade balance, and best and worst
      days present exactly when some row has a date. */
  function SummarizePerformance(rows: seq<TradeRow>): (s: Report)
    ensures s.headline.totalTrades == |rows|
    ensures s.headline == HeadlineOf(PnlColumn(rows))
    ensures s.profitFactor == ProfitFactor(PnlAsRead(rows))
    ensures s.bestDay.None? <==> DatedDays(rows) == {}
    ensures s.worstDay.None? <==> DatedDays(rows) == {}
    ensures var eq := CumSum(PnlColumn(rows));
      && s.maxDrawdown >= 0.0
      && (forall i, j :: 0 <= j <= i < |eq| ==> eq[j] - eq[i] <= s.maxDrawdown)
      && (rows != [] ==> exists i, j :: 0 <= j <= i < |eq| && eq[j] - eq[i] == s.maxDrawdown)
  {
    var xs := PnlColumn(rows);
    assert Filled(AllPresent(CumSum(xs))) == CumSum(xs);
    var (best, worst) := BestAndWorstDays(rows);
    Report(
      headline := HeadlineOf(xs),
      profitFactor := ProfitFactor(PnlAsRead(rows)),
      maxDrawdown := MaxDrawdown(AllPresent(CumSum(xs))),
      bestDay := best,
      worstDay := worst)
  }

  /** The best and the worst day of the daily breakdown, when it lists any. */
  function BestAndWorstDays(rows: seq<TradeRow>): (r: (Option<DayTotal>, Option<DayTotal>))
    ensures r.0.None? <==> DatedDays(rows) == {}
    ensures r.1.None? <==> DatedDays(rows) == {}
  {
    var daily := GroupByDay(rows);
    NoDaysIffEmpty(daily);
    if daily == [] then (None, None) else (Some(BestDay(daily)), Some(WorstDay(daily)))
  }

  /** The best day is a dated day whose rows sum to its reported P&L, and
      no dated day sums to more; the worst day likewise sums to no more than
      any other. */
  lemma SummaryBestAndWorstDays(rows: seq<TradeRow>)
    requires DatedDays(rows) != {}
    ensures var s := SummarizePerformance(rows);
      var best, worst := s.bestDay.value, s.worstDay.value;
      && best.day in DatedDays(rows) && best.pnl == DaySum(rows, best.day)
      && worst.day in DatedDays(rows) && worst.pnl == DaySum(rows, worst.day)
      && (forall d :: d in DatedDays(rows) ==> worst.pnl <= DaySum(rows, d) <= best.pnl)
  {
    var g := GroupByDay(rows);
    NoDaysIffEmpty(g);
    var best, worst := BestDay(g), WorstDay(g);
    assert SummarizePerformance(rows).bestDay == Some(best);
    assert SummarizePerformance(rows).worstDay == Some(worst);
    forall e | e in g ensures e.day in DatedDays(rows) && e.pnl == DaySum(rows, e.day) {
      var i :| 0 <= i < |g| && g[i] == e;
      assert g[i].day in Days(g);
      TotalOnListedDay(g, i);
      GroupByDaySums(rows, e.day);
    }
    forall d | d in DatedDays(rows) ensures worst.pnl <= DaySum(rows, d) <= best.pnl {
      assert d in Days(g);
      var i :| 0 <= i < |g| && g[i].day == d;
      TotalOnListedDay(g, i);
      GroupByDaySums(rows, d);
    }
  }
}
