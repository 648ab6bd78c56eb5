/** The monthly P&L calendar (app.py:2743-2786): the scale used to shade
    each day, the green / red / flat day counts, and the per-week totals
    that count only the days of the selected month. The week grid
    (`calendar.monthdatescalendar`) is an input. */
module Calendar {
  import opened Clock
  import opened Series

  /** A day's P&L and number of trades, as `month_daily` stores them. */
  datatype DayStat = DayStat(pnl: real, trades: nat)

  /** One row of the month's daily table. */
  datatype DayRow = DayRow(date: Date, pnl: real, trades: nat)

  /** `month_daily`: the rows keyed by date, a later row replacing an
      earlier one with the same date. */
  function MonthDaily(rows: seq<DayRow>): (m: map<Date, DayStat>)
    ensures rows == [] ==> m == map[]
    ensures rows != [] ==> var last := rows[|rows| - 1];
      last.date in m && m[last.date] == DayStat(last.pnl, last.trades)
  {
    if rows == [] then map[]
    else
      var last := rows[|rows| - 1];
      MonthDaily(rows[..|rows| - 1])[last.date := DayStat(last.pnl, last.trades)]
  }

  /** Every day of `month_daily` is a row's date and carries that row's
      figures, and every row's date is a day of it. */
  lemma {:induction false} MonthDailyFromRows(rows: seq<DayRow>)
    ensures forall i :: 0 <= i < |rows| ==> rows[i].date in MonthDaily(rows)
    ensures forall d :: d in MonthDaily(rows) ==>
      exists i :: 0 <= i < |rows| && rows[i].date == d && MonthDaily(rows)[d] == DayStat(rows[i].pnl, rows[i].trades)
    decreases |rows|
  {
    if rows != [] {
      var n := |rows| - 1;
      MonthDailyFromRows(rows[..n]);
      assert forall i :: 0 <= i < n ==> rows[..n][i] == rows[i];
      forall d | d in MonthDaily(rows)
        ensures exists i :: 0 <= i < |rows| && rows[i].date == d && MonthDaily(rows)[d] == DayStat(rows[i].pnl, rows[i].trades)
      {
        var before := MonthDaily(rows[..n]);
        assert MonthDaily(rows) == before[rows[n].date := DayStat(rows[n].pnl, rows[n].trades)];
        if d != rows[n].date {
          assert d in before && MonthDaily(rows)[d] == before[d];
          var i :| 0 <= i < n && rows[..n][i].date == d && before[d] == DayStat(rows[..n][i].pnl, rows[..n][i].trades);
          assert rows[i] == rows[..n][i];
        } else {
          assert MonthDaily(rows)[d] == DayStat(rows[n].pnl, rows[n].trades);
        }
      }
    }
  }

  function Abs(x: real): real {
    if x < 0.0 then -x else x
  }

  /** The largest P&L size among the rows, 0 for none. */
  function LargestSize(rows: seq<DayRow>): (m: real)
    ensures m >= 0.0
    ensures forall i :: 0 <= i < |rows| ==> Abs(rows[i].pnl) <= m
    ensures rows != [] ==> exists i :: 0 <= i < |rows| && Abs(rows[i].pnl) == m
    ensures rows == [] ==> m == 0.0
  {
    if rows == [] then 0.0
    else
      var rest := LargestSize(rows[..|rows| - 1]);
      var here := Abs(rows[|rows| - 1].pnl);
      assert forall i :: 0 <= i < |rows| - 1 ==> rows[..|rows| - 1][i] == rows[i];
      if here > rest then here else rest
  }

  /** `max_abs`: the largest day size, or 1 when every day is flat or there
      are no days. */
  function MaxAbs(rows: seq<DayRow>): (m: real)
    ensures m > 0.0
    ensures forall i :: 0 <= i < |rows| ==> Abs(rows[i].pnl) <= m
    ensures m != 1.0 ==> exists i :: 0 <= i < |rows| && Abs(rows[i].pnl) == m
    ensures (forall i :: 0 <= i < |rows| ==> rows[i].pnl == 0.0) ==> m == 1.0
  {
    var largest := LargestSize(rows);
    if largest == 0.0 then 1.0 else largest
  }

  /** The shading of a day in `pnl_color`: its size over `max_abs`,
      capped at 1. */
  function Intensity(value: real, maxAbs: real): (r: real)
    requires maxAbs > 0.0
    ensures 0.0 <= r <= 1.0
    ensures Abs(value) <= maxAbs ==> r * maxAbs == Abs(value)
    ensures Abs(value) >= maxAbs ==> r == 1.0
  {
    var ratio := Abs(value) / maxAbs;
    IntensityWithinScale(value, maxAbs);
    if ratio < 1.0 then ratio else 1.0
  }

  /** The cap in `pnl_color` never bites for a day of the month: each day's
      shading is exactly its size over `max_abs`. */
  lemma ShadingIsProportional(rows: seq<DayRow>, d: Date)
    requires d in MonthDaily(rows)
    ensures Intensity(MonthDaily(rows)[d].pnl, MaxAbs(rows)) * MaxAbs(rows) == Abs(MonthDaily(rows)[d].pnl)
  {
    DayWithinScale(rows, d);
  }

  /** No day of the month is larger than `max_abs`. */
  lemma DayWithinScale(rows: seq<DayRow>, d: Date)
    requires d in MonthDaily(rows)
    ensures Abs(MonthDaily(rows)[d].pnl) <= MaxAbs(rows)
  {
    MonthDailyFromRows(rows);
    var i :| 0 <= i < |rows| && rows[i].date == d && MonthDaily(rows)[d] == DayStat(rows[i].pnl, rows[i].trades);
  }

  /** Size over scale is below 1 exactly when the size is below the
      scale. */
  lemma IntensityWithinScale(v: real, m: real)
    requires m > 0.0
    ensures 0.0 <= Abs(v) / m
    ensures (Abs(v) / m) * m == Abs(v)
    ensures Abs(v) / m < 1.0 <==> Abs(v) < m
  {
    Quotient(Abs(v), m);
    if Abs(v) / m >= 1.0 {
      assert (Abs(v) / m) * m >= 1.0 * m;
    }
    if Abs(v) / m < 1.0 {
      assert (Abs(v) / m) * m < 1.0 * m;
    }
  }

  /** The P&L column of the month. */
  function Pnls(rows: seq<DayRow>): (xs: seq<real>)
    ensures |xs| == |rows|
    ensures forall i :: 0 <= i < |rows| ==> xs[i] == rows[i].pnl
  {
    seq(|rows|, i requires 0 <= i < |rows| => rows[i].pnl)
  }

  /** Number of flat entries (`(pnl == 0).sum()`). */
  function FlatCount(xs: seq<real>): nat {
    if xs == [] then 0
    else FlatCount(xs[..|xs| - 1]) + (if xs[|xs| - 1] == 0.0 then 1 else 0)
  }

  datatype MonthStats = MonthStats(total: real, green: nat, red: nat, flat: nat)

  /** The monthly stats line: total, and green, red and flat day counts;
      all 0 for a month without rows. */
  function MonthStatsOf(rows: seq<DayRow>): (s: MonthStats)
    ensures rows == [] ==> s == MonthStats(0.0, 0, 0, 0)
    ensures s.total == Gains(Pnls(rows)) + Losses(Pnls(rows))
    ensures s.green == WinCount(Pnls(rows)) && s.red == LossCount(Pnls(rows)) && s.flat == FlatCount(Pnls(rows))
  {
    var xs := Pnls(rows);
    GainsPlusLosses(xs);
    if rows == [] then MonthStats(0.0, 0, 0, 0)
    else MonthStats(Sum(xs), WinCount(xs), LossCount(xs), FlatCount(xs))
  }

  /** Every day is exactly one of green, red or flat. */
  lemma {:induction false} DaysArePartitioned(xs: seq<real>)
    ensures WinCount(xs) + LossCount(xs) + FlatCount(xs) == |xs|
    decreases |xs|
  {
    if xs != [] {
      DaysArePartitioned(xs[..|xs| - 1]);
    }
  }

  /** The month's green, red and flat days add up to its number of days. */
  lemma MonthDaysAddUp(rows: seq<DayRow>)
    ensures var s := MonthStatsOf(rows); s.green + s.red + s.flat == |rows|
  {
    DaysArePartitioned(Pnls(rows));
  }

  /** A week's P&L and trade count, and the days of the month it holds. */
  datatype WeekTotal = WeekTotal(pnl: real, trades: nat, dates: seq<Date>)

  /** What the grid shows for a day: its figures when it is a day of the
      month with trades, and nothing otherwise. */
  function DayValue(day: Date, month: int, daily: map<Date, DayStat>): (v: DayStat)
    ensures day.month != month || day !in daily ==> v == DayStat(0.0, 0)
  {
    if day.month == month && day in daily then daily[day] else DayStat(0.0, 0)
  }

  /** The week totals as a function: days of other months are skipped. */
  function WeekSum(week: seq<Date>, month: int, daily: map<Date, DayStat>): (w: WeekTotal)
    ensures |w.dates| <= |week|
    ensures forall k :: 0 <= k < |w.dates| ==> w.dates[k].month == month
  {
    if week == [] then WeekTotal(0.0, 0, [])
    else
      var n := |week| - 1;
      var w := WeekSum(week[..n], month, daily);
      var day := week[n];
      if day.month == month then
        var v := DayValue(day, month, daily);
        WeekTotal(w.pnl + v.pnl, w.trades + v.trades, w.dates + [day])
      else w
  }

  /** One step of the week loop. */
  lemma WeekSumStep(week: seq<Date>, j: nat, month: int, daily: map<Date, DayStat>)
    requires j < |week|
    ensures var w := WeekSum(week[..j], month, daily); var v := DayValue(week[j], month, daily);
      WeekSum(week[..j + 1], month, daily) ==
        if week[j].month == month then WeekTotal(w.pnl + v.pnl, w.trades + v.trades, w.dates + [week[j]]) else w
  {
    assert week[..j + 1][..j] == week[..j];
  }

  /** The week loop of the calendar: for each week of the grid, add up the
      P&L and trades of its days of the month and list those days. */
  method WeekTotals(weeks: seq<seq<Date>>, month: int, daily: map<Date, DayStat>) returns (totals: seq<WeekTotal>)
    ensures |totals| == |weeks|
    ensures forall i :: 0 <= i < |weeks| ==> totals[i] == WeekSum(weeks[i], month, daily)
  {
    totals := [];
    var i := 0;
    while i < |weeks|
      invariant 0 <= i <= |weeks|
      invariant |totals| == i
      invariant forall k :: 0 <= k < i ==> totals[k] == WeekSum(weeks[k], month, daily)
    {
      var week := weeks[i];
      var weekTotal := 0.0;
      var weekTrades: nat := 0;
      var weekDates: seq<Date> := [];
      var j := 0;
      while j < |week|
        invariant 0 <= j <= |week|
        invariant WeekTotal(weekTotal, weekTrades, weekDates) == WeekSum(week[..j], month, daily)
      {
        var day := week[j];
        WeekSumStep(week, j, month, daily);
        var inMonth := day.month == month;
        var stat := if inMonth then DayValue(day, month, daily) else DayStat(0.0, 0);
        if inMonth {
          weekTotal := weekTotal + stat.pnl;
          weekTrades := weekTrades + stat.trades;
          weekDates := weekDates + [day];
        }
        j := j + 1;
      }
      assert week[..|week|] == week;
      totals := totals + [WeekTotal(weekTotal, weekTrades, weekDates)];
      i := i + 1;
    }
  }

  /** Summing two stretches of days one after the other is summing them
      separately and adding the totals. */
  lemma {:induction false} WeekSumAppend(a: seq<Date>, b: seq<Date>, month: int, daily: map<Date, DayStat>)
    ensures var wa, wb, w := WeekSum(a, month, daily), WeekSum(b, month, daily), WeekSum(a + b, month, daily);
      w.pnl == wa.pnl + wb.pnl && w.trades == wa.trades + wb.trades && w.dates == wa.dates + wb.dates
    decreases |b|
  {
    if b == [] {
      assert a + b == a;
    } else {
      var n := |b| - 1;
      WeekSumAppend(a, b[..n], month, daily);
      assert (a + b)[..|a + b| - 1] == a + b[..n];
      var wa, wb := WeekSum(a, month, daily), WeekSum(b[..n], month, daily);
      if b[n].month == month {
        assert wa.dates + wb.dates + [b[n]] == wa.dates + (wb.dates + [b[n]]);
      }
    }
  }

  /** Days of other months shown in the grid change nothing: a week sums
      to the same as its days of the month alone. */
  lemma {:induction false} OtherMonthsIgnored(week: seq<Date>, month: int, daily: map<Date, DayStat>)
    ensures WeekSum(week, month, daily) == WeekSum(WeekSum(week, month, daily).dates, month, daily)
    decreases |week|
  {
    if week != [] {
      var n := |week| - 1;
      var day, w := week[n], WeekSum(week[..n], month, daily);
      OtherMonthsIgnored(week[..n], month, daily);
      WeekSumStep(week, n, month, daily);
      assert week[..n + 1] == week;
      if day.month == month {
        WeekSumAppend(w.dates, [day], month, daily);
        WeekSumOfOneDay(day, month, daily);
      }
    }
  }

  /** A single day of the month sums to its own figures. */
  lemma WeekSumOfOneDay(day: Date, month: int, daily: map<Date, DayStat>)
    requires day.month == month
    ensures var v := DayValue(day, month, daily);
      WeekSum([day], month, daily) == WeekTotal(v.pnl, v.trades, [day])
  {
    assert [day][..0] == [];
  }

  /** All the days of the grid, week after week. */
  function Flatten(weeks: seq<seq<Date>>): seq<Date> {
    if weeks == [] then [] else Flatten(weeks[..|weeks| - 1]) + weeks[|weeks| - 1]
  }

  function SumPnl(totals: seq<WeekTotal>): real {
    if totals == [] then 0.0 else SumPnl(totals[..|totals| - 1]) + totals[|totals| - 1].pnl
  }

  function SumTrades(totals: seq<WeekTotal>): nat {
    if totals == [] then 0 else SumTrades(totals[..|totals| - 1]) + totals[|totals| - 1].trades
  }

  /** The week totals add up to the totals of the whole grid: no day of
      the month is lost between the weeks and none is counted twice. */
  lemma {:induction false} WeekTotalsAddUp(weeks: seq<seq<Date>>, month: int, daily: map<Date, DayStat>)
    ensures var totals := seq(|weeks|, i requires 0 <= i < |weeks| => WeekSum(weeks[i], month, daily));
      var all := WeekSum(Flatten(weeks), month, daily);
      SumPnl(totals) == all.pnl && SumTrades(totals) == all.trades
    decreases |weeks|
  {
    var totals := seq(|weeks|, i requires 0 <= i < |weeks| => WeekSum(weeks[i], month, daily));
    if weeks != [] {
      var n := |weeks| - 1;
      WeekTotalsAddUp(weeks[..n], month, daily);
      var before := seq(n, i requires 0 <= i < n => WeekSum(weeks[..n][i], month, daily));
      assert totals[..n] == before;
      assert SumPnl(totals) == SumPnl(before) + totals[n].pnl;
      assert SumTrades(totals) == SumTrades(before) + totals[n].trades;
      assert Flatten(weeks) == Flatten(weeks[..n]) + weeks[n];
      WeekSumAppend(Flatten(weeks[..n]), weeks[n], month, daily);
    }
  }
}
