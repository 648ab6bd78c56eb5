/** The per-trade metrics engine, `compute_metrics` (app.py:2024-2145): two
    pricing conventions, futures priced by a fixed dollar value per point and
    forex pairs priced in pips, with every derived field optional. */
module Metrics {
  import opened Wrappers
  import opened Instruments
  import opened Clock
  import Text

  /** One trade as the journal holds it. A None number is a missing or
      unparseable cell; `contracts` counts lots for a forex pair. */
  datatype RawTrade = RawTrade(
    instrument: Option<string>, direction: Option<string>,
    entry: Option<real>, stop: Option<real>, exitPrice: Option<real>, takeProfit: Option<real>,
    contracts: Option<int>, commission: Option<real>, slippage: Option<real>,
    maxFavorable: Option<real>, maxAdverse: Option<real>, accountSize: Option<real>,
    date: Option<string>, entryTime: Option<string>, exitTime: Option<string>)

  /** The fourteen computed columns. For a forex pair `points` and the MFE/MAE
      fields count pips. */
  datatype Metrics = Metrics(
    points: Option<real>, pnlGross: Option<real>, pnlNet: Option<real>,
    pnlPerContract: Option<real>, rMultiple: Option<real>, targetR: Option<real>,
    mfePoints: Option<real>, maePoints: Option<real>, mfeR: Option<real>, maeR: Option<real>,
    missedPnl: Option<real>, riskDollars: Option<real>, riskPercentActual: Option<real>,
    durationMinutes: Option<int>)

  /** The metrics of an incomplete trade: every column None. */
  const NoMetrics: Metrics :=
    Metrics(None, None, None, None, None, None, None, None, None, None, None, None, None, None)

  /** The fields of a trade that passed the completeness checks, with
      commission and slippage already defaulted to 0. */
  datatype Fill = Fill(
    isLong: bool, entry: real, stop: real, exit: real, takeProfit: Option<real>,
    contracts: int, commission: real, slippage: real,
    maxFavorable: Option<real>, maxAdverse: Option<real>, accountSize: Option<real>)

  function Abs(x: real): real {
    if x < 0.0 then -x else x
  }

  /** The price move from `entry` to `price` in the trade's favour. */
  function Favourable(isLong: bool, entry: real, price: real): real {
    if isLong then price - entry else entry - price
  }

  /** The price move from `entry` to `price` against the trade. */
  function Adverse(isLong: bool, entry: real, price: real): real {
    if isLong then entry - price else price - entry
  }

  /** `n / d`, or None when `d` is 0. */
  function Ratio(n: real, d: real): (r: Option<real>)
    ensures r.None? <==> d == 0.0
    ensures r.Some? ==> r.value * d == n
  {
    if d != 0.0 then Some(n / d) else None
  }

  /** A ratio of two distances is the same counted in pips. */
  lemma PipRatio(a: real, risk: real, pipSize: real)
    requires pipSize > 0.0
    ensures Ratio(a / pipSize, risk / pipSize).None? <==> risk == 0.0
    ensures Ratio(a / pipSize, risk / pipSize).Some? ==> Ratio(a / pipSize, risk / pipSize).value * risk == a
  {
    if risk != 0.0 {
      assert (a / pipSize) / (risk / pipSize) == a / risk;
    }
  }

  /** `risk_percent_actual`: risk as a percentage of a present, non-zero
      account size. */
  function RiskPercent(riskDollars: real, accountSize: Option<real>): (r: Option<real>)
    ensures r.None? <==> accountSize.None? || accountSize.value == 0.0
    ensures r.Some? ==> r.value * accountSize.value == riskDollars * 100.0
  {
    if accountSize.Some? && accountSize.value != 0.0 then Some(riskDollars / accountSize.value * 100.0)
    else None
  }

  /** The futures branch (app.py:2103-2145). */
  function FuturesMetrics(f: Fill, perPoint: real, duration: Option<int>): (m: Metrics)
    ensures m.points == Some(Favourable(f.isLong, f.entry, f.exit))
    ensures m.pnlGross.Some? && m.pnlNet.Some? && m.riskDollars.Some?
    ensures m.durationMinutes == duration
  {
    var points := Favourable(f.isLong, f.entry, f.exit);
    var size := f.contracts as real;
    var gross := points * perPoint * size;
    var net := gross - f.commission - f.slippage;
    var riskPoints := Abs(f.entry - f.stop);
    var riskDollars := riskPoints * perPoint * size;
    var mfePoints := if f.maxFavorable.Some? then Some(Favourable(f.isLong, f.entry, f.maxFavorable.value)) else None;
    var maePoints := if f.maxAdverse.Some? then Some(Adverse(f.isLong, f.entry, f.maxAdverse.value)) else None;
    Metrics(
      points := Some(points),
      pnlGross := Some(gross),
      pnlNet := Some(net),
      pnlPerContract := if f.contracts != 0 then Some(net / size) else None,
      rMultiple := Ratio(points, riskPoints),
      targetR := if f.takeProfit.Some? then Ratio(Favourable(f.isLong, f.entry, f.takeProfit.value), riskPoints) else None,
      mfePoints := mfePoints,
      maePoints := maePoints,
      mfeR := if mfePoints.Some? then Ratio(mfePoints.value, riskPoints) else None,
      maeR := if maePoints.Some? then Ratio(maePoints.value, riskPoints) else None,
      missedPnl := if mfePoints.Some? then Some((mfePoints.value - points) * perPoint * size) else None,
      riskDollars := Some(riskDollars),
      riskPercentActual := RiskPercent(riskDollars, f.accountSize),
      durationMinutes := duration)
  }

  /** Futures P&L: points times dollars per point times contracts, less
      commission and slippage; per-contract P&L needs a non-zero size. */
  lemma FuturesPnl(f: Fill, perPoint: real, duration: Option<int>)
    ensures var m := FuturesMetrics(f, perPoint, duration);
      && m.pnlGross.value == Favourable(f.isLong, f.entry, f.exit) * perPoint * f.contracts as real
      && m.pnlNet == Some(m.pnlGross.value - f.commission - f.slippage)
      && (m.pnlPerContract.None? <==> f.contracts == 0)
      && (m.pnlPerContract.Some? ==> m.pnlPerContract.value * f.contracts as real == m.pnlNet.value)
      && m.riskDollars.value == Abs(f.entry - f.stop) * perPoint * f.contracts as real
      && m.riskPercentActual == RiskPercent(m.riskDollars.value, f.accountSize)
  {
  }

  /** Futures R-multiples are point ratios to the stop distance, and every
      one of them is None exactly when that distance is 0. */
  lemma FuturesRisk(f: Fill, perPoint: real, duration: Option<int>)
    ensures var m := FuturesMetrics(f, perPoint, duration);
      var risk := Abs(f.entry - f.stop);
      && (m.rMultiple.None? <==> risk == 0.0)
      && (m.rMultiple.Some? ==> m.rMultiple.value * risk == m.points.value)
      && (m.targetR.None? <==> f.takeProfit.None? || risk == 0.0)
      && (m.targetR.Some? ==> m.targetR.value * risk == Favourable(f.isLong, f.entry, f.takeProfit.value))
      && (m.mfeR.None? <==> f.maxFavorable.None? || risk == 0.0)
      && (m.mfeR.Some? ==> m.mfeR.value * risk == m.mfePoints.value)
      && (m.maeR.None? <==> f.maxAdverse.None? || risk == 0.0)
      && (m.maeR.Some? ==> m.maeR.value * risk == m.maePoints.value)
  {
  }

  /** Futures excursions: MFE is measured in the trade's favour, MAE against
      it, and the missed P&L is what exiting at the MFE price would have
      added to the gross P&L. */
  lemma FuturesExcursions(f: Fill, perPoint: real, duration: Option<int>)
    ensures var m := FuturesMetrics(f, perPoint, duration);
      && m.mfePoints == (if f.maxFavorable.Some? then Some(Favourable(f.isLong, f.entry, f.maxFavorable.value)) else None)
      && m.maePoints == (if f.maxAdverse.Some? then Some(Adverse(f.isLong, f.entry, f.maxAdverse.value)) else None)
      && (m.missedPnl.None? <==> f.maxFavorable.None?)
      && (m.missedPnl.Some? ==>
            m.missedPnl.value == m.mfePoints.value * perPoint * f.contracts as real - m.pnlGross.value)
  {
  }

  /** Dollars per pip per lot. A yen quote uses the entry price when it is
      positive, the exit price otherwise, and 0 when that price is 0. */
  function PipValue(rule: PipValueRule, entry: real, exit: real): (v: real)
    ensures rule.FixedPerLot? ==> v == rule.dollars
    ensures rule.PerReferencePrice? && entry > 0.0 ==> v * entry == rule.numerator
    ensures rule.PerReferencePrice? && entry <= 0.0 && exit != 0.0 ==> v * exit == rule.numerator
    ensures rule.PerReferencePrice? && entry <= 0.0 && exit == 0.0 ==> v == 0.0
  {
    match rule
    case FixedPerLot(dollars) => dollars
    case PerReferencePrice(numerator) =>
      var reference := if entry > 0.0 then entry else exit;
      if reference != 0.0 then numerator / reference else 0.0
  }

  /** Lots for a forex trade: a size of 0 counts as one lot. */
  function Lots(contracts: int): (lots: int)
    ensures lots != 0
    ensures contracts != 0 ==> lots == contracts
    ensures contracts == 0 ==> lots == 1
  {
    if contracts != 0 then contracts else 1
  }

  /** The forex branch (app.py:2044-2101). The pip size is positive for
      every pair in the catalog. */
  function ForexMetrics(f: Fill, pipSize: real, rule: PipValueRule, duration: Option<int>): (m: Metrics)
    requires pipSize > 0.0
    ensures m.points.Some? && m.pnlGross.Some? && m.pnlNet.Some? && m.riskDollars.Some?
    ensures m.durationMinutes == duration
  {
    var pips := Favourable(f.isLong, f.entry, f.exit) / pipSize;
    var lots := Lots(f.contracts) as real;
    var pipValue := PipValue(rule, f.entry, f.exit);
    var gross := pips * pipValue * lots;
    var net := gross - f.commission - f.slippage;
    var riskPips := Abs(f.entry - f.stop) / pipSize;
    var riskDollars := riskPips * pipValue * lots;
    var mfePoints := if f.maxFavorable.Some? then Some(Favourable(f.isLong, f.entry, f.maxFavorable.value) / pipSize) else None;
    var maePoints := if f.maxAdverse.Some? then Some(Adverse(f.isLong, f.entry, f.maxAdverse.value) / pipSize) else None;
    Metrics(
      points := Some(pips),
      pnlGross := Some(gross),
      pnlNet := Some(net),
      pnlPerContract := Some(net / lots),
      rMultiple := Ratio(net, riskDollars),
      targetR := if f.takeProfit.Some?
                 then Ratio(Favourable(f.isLong, f.entry, f.takeProfit.value) / pipSize, riskPips) else None,
      mfePoints := mfePoints,
      maePoints := maePoints,
      mfeR := if mfePoints.Some? then Ratio(mfePoints.value, riskPips) else None,
      maeR := if maePoints.Some? then Ratio(maePoints.value, riskPips) else None,
      missedPnl := if mfePoints.Some? then Some((mfePoints.value - pips) * pipValue * lots) else None,
      riskDollars := Some(riskDollars),
      riskPercentActual := RiskPercent(riskDollars, f.accountSize),
      durationMinutes := duration)
  }

  /** Forex P&L: pips times pip value times lots, less commission and
      slippage; the per-lot P&L is always defined, since 0 lots count as 1. */
  lemma ForexPnl(f: Fill, pipSize: real, rule: PipValueRule, duration: Option<int>)
    requires pipSize > 0.0
    ensures var m := ForexMetrics(f, pipSize, rule, duration);
      var pipValue := PipValue(rule, f.entry, f.exit);
      var lots := Lots(f.contracts) as real;
      && m.points.value * pipSize == Favourable(f.isLong, f.entry, f.exit)
      && m.pnlGross.value == (Favourable(f.isLong, f.entry, f.exit) / pipSize) * pipValue * lots
      && m.pnlNet == Some(m.pnlGross.value - f.commission - f.slippage)
      && m.pnlPerContract.Some? && m.pnlPerContract.value * lots == m.pnlNet.value
      && m.riskDollars.value * pipSize == Abs(f.entry - f.stop) * pipValue * lots
      && m.riskPercentActual == RiskPercent(m.riskDollars.value, f.accountSize)
  {
    var m := ForexMetrics(f, pipSize, rule, duration);
    var pipValue := PipValue(rule, f.entry, f.exit);
    var lots := Lots(f.contracts) as real;
    var net := m.pnlNet.value;
    assert m.points.value == Favourable(f.isLong, f.entry, f.exit) / pipSize;
    DivMul(Favourable(f.isLong, f.entry, f.exit), pipSize);
    assert m.pnlPerContract.value == net / lots;
    DivMul(net, lots);
    assert m.riskDollars.value == (Abs(f.entry - f.stop) / pipSize) * pipValue * lots;
    DivScaleMul(Abs(f.entry - f.stop), pipSize, pipValue * lots);
  }

  /** Dividing by a non-zero number and multiplying back is the identity. */
  lemma DivMul(a: real, b: real)
    requires b != 0.0
    ensures (a / b) * b == a
  {
  }

  /** A scaled quotient multiplied back by the divisor. */
  lemma DivScaleMul(a: real, b: real, k: real)
    requires b != 0.0
    ensures (a / b) * k * b == a * k
  {
    DivMul(a, b);
    calc {
      (a / b) * k * b;
      ((a / b) * b) * k;
      a * k;
    }
  }

  /** The forex R-multiple divides the NET P&L, fees included, by the dollar
      risk, and is None exactly when that risk is 0. */
  lemma ForexRMultiple(f: Fill, pipSize: real, rule: PipValueRule, duration: Option<int>)
    requires pipSize > 0.0
    ensures var m := ForexMetrics(f, pipSize, rule, duration);
      && (m.rMultiple.None? <==> m.riskDollars.value == 0.0)
      && (m.rMultiple.Some? ==> m.rMultiple.value * m.riskDollars.value == m.pnlNet.value)
  {
  }

  /** The forex target R is the pip distance to the take-profit over the
      pip distance to the stop, None when either is missing. */
  lemma ForexTargetR(f: Fill, pipSize: real, rule: PipValueRule, duration: Option<int>)
    requires pipSize > 0.0
    ensures var m := ForexMetrics(f, pipSize, rule, duration);
      var risk := Abs(f.entry - f.stop);
      && (m.targetR.None? <==> f.takeProfit.None? || risk == 0.0)
      && (m.targetR.Some? ==> m.targetR.value * risk == Favourable(f.isLong, f.entry, f.takeProfit.value))
  {
    if f.takeProfit.Some? {
      PipRatio(Favourable(f.isLong, f.entry, f.takeProfit.value), Abs(f.entry - f.stop), pipSize);
    }
  }

  /** The forex MFE in R is a pip ratio to the stop distance, None when
      that distance is 0. */
  lemma ForexFavourableR(f: Fill, pipSize: real, rule: PipValueRule, duration: Option<int>)
    requires pipSize > 0.0
    ensures var m := ForexMetrics(f, pipSize, rule, duration);
      var risk := Abs(f.entry - f.stop);
      && (m.mfeR.None? <==> f.maxFavorable.None? || risk == 0.0)
      && (m.mfeR.Some? ==> m.mfeR.value * risk == Favourable(f.isLong, f.entry, f.maxFavorable.value))
  {
    if f.maxFavorable.Some? {
      var m, mfe, risk := ForexMetrics(f, pipSize, rule, duration), Favourable(f.isLong, f.entry, f.maxFavorable.value), Abs(f.entry - f.stop);
      assert m.mfeR == Ratio(mfe / pipSize, risk / pipSize);
      PipRatio(mfe, risk, pipSize);
    }
  }

  /** The forex MAE in R, likewise. */
  lemma ForexAdverseR(f: Fill, pipSize: real, rule: PipValueRule, duration: Option<int>)
    requires pipSize > 0.0
    ensures var m := ForexMetrics(f, pipSize, rule, duration);
      var risk := Abs(f.entry - f.stop);
      && (m.maeR.None? <==> f.maxAdverse.None? || risk == 0.0)
      && (m.maeR.Some? ==> m.maeR.value * risk == Adverse(f.isLong, f.entry, f.maxAdverse.value))
  {
    if f.maxAdverse.Some? {
      PipRatio(Adverse(f.isLong, f.entry, f.maxAdverse.value), Abs(f.entry - f.stop), pipSize);
    }
  }

  /** Forex excursions are counted in pips; the missed P&L is priced at the
      trade's pip value and lots. */
  lemma ForexExcursions(f: Fill, pipSize: real, rule: PipValueRule, duration: Option<int>)
    requires pipSize > 0.0
    ensures var m := ForexMetrics(f, pipSize, rule, duration);
      && (m.mfePoints.None? <==> f.maxFavorable.None?)
      && (m.mfePoints.Some? ==> m.mfePoints.value * pipSize == Favourable(f.isLong, f.entry, f.maxFavorable.value))
      && (m.maePoints.None? <==> f.maxAdverse.None?)
      && (m.maePoints.Some? ==> m.maePoints.value * pipSize == Adverse(f.isLong, f.entry, f.maxAdverse.value))
      && (m.missedPnl.None? <==> f.maxFavorable.None?)
      && (m.missedPnl.Some? ==>
            m.missedPnl.value == m.mfePoints.value * PipValue(rule, f.entry, f.exit) * Lots(f.contracts) as real
                                 - m.pnlGross.value)
  {
  }

  /** The catalog entry of the trade's normalised symbol, if any. */
  function SpecOf(t: RawTrade): Option<InstrumentSpec> {
    var symbol := NormalizeInstrument(t.instrument);
    if symbol.Some? then Lookup(symbol.value) else None
  }

  /** The three cases in which `compute_metrics` computes nothing: no
      instrument or direction, a missing entry, stop, exit or size, or a
      symbol that is neither a forex pair nor a known future. */
  predicate Incomplete(t: RawTrade) {
    || !Given(t.instrument) || !Given(t.direction)
    || t.entry.None? || t.stop.None? || t.exitPrice.None? || t.contracts.None?
    || SpecOf(t).None?
  }

  /** The trade's fields once the completeness checks pass. Any direction
      other than exactly "Long" is traded as a short; missing commission and
      slippage count as 0. */
  function FillOf(t: RawTrade): (f: Fill)
    requires !Incomplete(t)
    ensures f.isLong <==> t.direction.value == "Long"
    ensures f.entry == t.entry.value && f.stop == t.stop.value && f.exit == t.exitPrice.value
    ensures f.contracts == t.contracts.value
    ensures f.commission == t.commission.GetOr(0.0) && f.slippage == t.slippage.GetOr(0.0)
  {
    Fill(t.direction.value == "Long", t.entry.value, t.stop.value, t.exitPrice.value, t.takeProfit,
         t.contracts.value, t.commission.GetOr(0.0), t.slippage.GetOr(0.0),
         t.maxFavorable, t.maxAdverse, t.accountSize)
  }

  /** `compute_metrics`: all fourteen columns None for an incomplete trade,
      and for a complete one the branch of its instrument's convention. */
  function ComputeMetrics(t: RawTrade, parseDate: DateParser, parseTime: TimeParser): (m: Metrics)
    ensures m == NoMetrics <==> Incomplete(t)
    ensures !Incomplete(t) ==> m.points.Some? && m.pnlGross.Some? && m.pnlNet.Some? && m.riskDollars.Some?
    ensures !Incomplete(t) ==>
      m.durationMinutes == DurationMinutes(t.date, t.entryTime, t.exitTime, parseDate, parseTime)
  {
    if !Given(t.instrument) || !Given(t.direction) then NoMetrics
    else if t.entry.None? || t.stop.None? || t.exitPrice.None? || t.contracts.None? then NoMetrics
    else
      var duration := DurationMinutes(t.date, t.entryTime, t.exitTime, parseDate, parseTime);
      match SpecOf(t)
      case None => NoMetrics
      case Some(PipConvention(pipSize, rule)) =>
        ForexPipSizePositive(t);
        ForexMetrics(FillOf(t), pipSize, rule, duration)
      case Some(PointValue(perPoint)) =>
        FuturesMetrics(FillOf(t), perPoint, duration)
  }

  /** Every forex pair in the catalog has a positive pip size. */
  lemma ForexPipSizePositive(t: RawTrade)
    requires SpecOf(t).Some? && SpecOf(t).value.PipConvention?
    ensures SpecOf(t).value.pipSize > 0.0
  {
    var symbol := NormalizeInstrument(t.instrument).value;
    ForexConventions(symbol);
  }

  /** For a future: points are `exit - entry` for "Long" and `entry - exit`
      for any other direction, and every R ratio is None when the stop sits
      at the entry. */
  lemma ComputeMetricsFutures(t: RawTrade, parseDate: DateParser, parseTime: TimeParser)
    requires !Incomplete(t) && SpecOf(t).value.PointValue?
    ensures var m := ComputeMetrics(t, parseDate, parseTime);
      var entry, stop, exit := t.entry.value, t.stop.value, t.exitPrice.value;
      && m.points.value == (if t.direction.value == "Long" then exit - entry else entry - exit)
      && (entry == stop ==> m.rMultiple.None? && m.targetR.None? && m.mfeR.None? && m.maeR.None?)
      && (entry != stop ==> m.rMultiple.Some? && m.rMultiple.value * Abs(entry - stop) == m.points.value)
  {
    var f := FillOf(t);
    var perPoint := SpecOf(t).value.dollarsPerPoint;
    var duration := DurationMinutes(t.date, t.entryTime, t.exitTime, parseDate, parseTime);
    DispatchFutures(t, parseDate, parseTime);
    FuturesRisk(f, perPoint, duration);
  }

  /** A complete trade on a future is priced by the futures branch. */
  lemma DispatchFutures(t: RawTrade, parseDate: DateParser, parseTime: TimeParser)
    requires !Incomplete(t) && SpecOf(t).value.PointValue?
    ensures ComputeMetrics(t, parseDate, parseTime)
         == FuturesMetrics(FillOf(t), SpecOf(t).value.dollarsPerPoint,
                           DurationMinutes(t.date, t.entryTime, t.exitTime, parseDate, parseTime))
  {
  }

  /** A complete trade on a forex pair is priced by the forex branch. */
  lemma DispatchForex(t: RawTrade, parseDate: DateParser, parseTime: TimeParser)
    requires !Incomplete(t) && SpecOf(t).value.PipConvention?
    ensures SpecOf(t).value.pipSize > 0.0
    ensures ComputeMetrics(t, parseDate, parseTime)
         == ForexMetrics(FillOf(t), SpecOf(t).value.pipSize, SpecOf(t).value.rule,
                         DurationMinutes(t.date, t.entryTime, t.exitTime, parseDate, parseTime))
  {
    ForexPipSizePositive(t);
  }

  /** The risk percentage is None exactly when the account size is missing
      or 0, for both conventions. */
  lemma ComputeMetricsRiskPercent(t: RawTrade, parseDate: DateParser, parseTime: TimeParser)
    requires !Incomplete(t)
    ensures var m := ComputeMetrics(t, parseDate, parseTime);
      m.riskPercentActual.None? <==> t.accountSize.None? || t.accountSize.value == 0.0
  {
    var f := FillOf(t);
    var duration := DurationMinutes(t.date, t.entryTime, t.exitTime, parseDate, parseTime);
    match SpecOf(t).value
    case PointValue(perPoint) =>
      FuturesPnl(f, perPoint, duration);
    case PipConvention(pipSize, rule) =>
      ForexPipSizePositive(t);
      ForexPnl(f, pipSize, rule, duration);
  }

  /** A forex size of 0 is priced as one lot. */
  lemma ForexZeroLotsIsOneLot(f: Fill, pipSize: real, rule: PipValueRule, duration: Option<int>)
    requires pipSize > 0.0 && f.contracts == 0
    ensures ForexMetrics(f, pipSize, rule, duration) == ForexMetrics(f.(contracts := 1), pipSize, rule, duration)
  {
    var g := f.(contracts := 1);
    assert Lots(f.contracts) as real == 1.0 == Lots(g.contracts) as real;
    var m, n := ForexMetrics(f, pipSize, rule, duration), ForexMetrics(g, pipSize, rule, duration);
    assert m.pnlGross.value == n.pnlGross.value;
    assert m.riskDollars.value == n.riskDollars.value;
    assert m.missedPnl.Some? ==> m.missedPnl.value == n.missedPnl.value;
  }

  /** Any direction other than exactly "Long" is priced as a short: the
      metrics are those of the same trade marked "Short". */
  lemma NonLongIsShort(t: RawTrade, parseDate: DateParser, parseTime: TimeParser)
    requires Given(t.direction) && t.direction.value != "Long"
    ensures ComputeMetrics(t, parseDate, parseTime) == ComputeMetrics(t.(direction := Some("Short")), parseDate, parseTime)
  {
    var u := t.(direction := Some("Short"));
    assert SpecOf(u) == SpecOf(t);
    if !Incomplete(t) {
      assert FillOf(u) == FillOf(t);
    }
  }

  /** A price reflected through 0, when present. */
  function Negated(price: Option<real>): (r: Option<real>)
    ensures r.None? <==> price.None?
    ensures r.Some? ==> r.value == -price.value
  {
    if price.Some? then Some(-price.value) else None
  }

  /** The trade on the other side with every price reflected through 0. */
  function Mirrored(f: Fill): Fill {
    f.(isLong := !f.isLong, entry := -f.entry, stop := -f.stop, exit := -f.exit,
       takeProfit := Negated(f.takeProfit), maxFavorable := Negated(f.maxFavorable),
       maxAdverse := Negated(f.maxAdverse))
  }

  /** The short side is the long side on reflected prices: a futures trade
      and its mirror image have the same metrics. */
  lemma FuturesShortIsMirroredLong(f: Fill, perPoint: real, duration: Option<int>)
    ensures FuturesMetrics(Mirrored(f), perPoint, duration) == FuturesMetrics(f, perPoint, duration)
  {
    var m, n := FuturesMetrics(Mirrored(f), perPoint, duration), FuturesMetrics(f, perPoint, duration);
    MirrorPnl(f, perPoint, duration);
    MirrorRisk(f, perPoint, duration);
    MirrorRatios(f, perPoint, duration);
    MirrorExcursions(f, perPoint, duration);
    assert m.pnlGross == n.pnlGross && m.pnlNet == n.pnlNet && m.riskDollars == n.riskDollars;
  }

  /** Mirroring keeps the points and the P&L. */
  lemma MirrorPnl(f: Fill, perPoint: real, duration: Option<int>)
    ensures var m, n := FuturesMetrics(Mirrored(f), perPoint, duration), FuturesMetrics(f, perPoint, duration);
      && m.points == n.points && m.pnlGross.value == n.pnlGross.value && m.pnlNet.value == n.pnlNet.value
      && m.pnlPerContract == n.pnlPerContract && m.durationMinutes == n.durationMinutes
  {
    MirrorDistances(f.isLong, f.entry, f.exit);
  }

  /** Mirroring keeps the dollar risk and the risk percentage. */
  lemma MirrorRisk(f: Fill, perPoint: real, duration: Option<int>)
    ensures var m, n := FuturesMetrics(Mirrored(f), perPoint, duration), FuturesMetrics(f, perPoint, duration);
      m.riskDollars.value == n.riskDollars.value && m.riskPercentActual == n.riskPercentActual
  {
    FuturesPnl(Mirrored(f), perPoint, duration);
    FuturesPnl(f, perPoint, duration);
    assert Abs(-f.entry - -f.stop) == Abs(f.entry - f.stop);
  }

  /** Mirroring keeps every R ratio. */
  lemma MirrorRatios(f: Fill, perPoint: real, duration: Option<int>)
    ensures var m, n := FuturesMetrics(Mirrored(f), perPoint, duration), FuturesMetrics(f, perPoint, duration);
      m.rMultiple == n.rMultiple && m.targetR == n.targetR && m.mfeR == n.mfeR && m.maeR == n.maeR
  {
    MirrorDistances(f.isLong, f.entry, f.exit);
    assert Abs(-f.entry - -f.stop) == Abs(f.entry - f.stop);
    if f.takeProfit.Some? { MirrorDistances(f.isLong, f.entry, f.takeProfit.value); }
    if f.maxFavorable.Some? { MirrorDistances(f.isLong, f.entry, f.maxFavorable.value); }
    if f.maxAdverse.Some? { MirrorDistances(f.isLong, f.entry, f.maxAdverse.value); }
  }

  /** Mirroring keeps the excursions and the missed P&L. */
  lemma MirrorExcursions(f: Fill, perPoint: real, duration: Option<int>)
    ensures var m, n := FuturesMetrics(Mirrored(f), perPoint, duration), FuturesMetrics(f, perPoint, duration);
      m.mfePoints == n.mfePoints && m.maePoints == n.maePoints && m.missedPnl == n.missedPnl
  {
    FuturesExcursions(Mirrored(f), perPoint, duration);
    FuturesExcursions(f, perPoint, duration);
    MirrorPnl(f, perPoint, duration);
    if f.maxFavorable.Some? {
      var m, n := FuturesMetrics(Mirrored(f), perPoint, duration), FuturesMetrics(f, perPoint, duration);
      MirrorDistances(f.isLong, f.entry, f.maxFavorable.value);
      assert m.mfePoints.value == n.mfePoints.value;
      assert m.missedPnl.value == n.missedPnl.value;
    }
    if f.maxAdverse.Some? { MirrorDistances(f.isLong, f.entry, f.maxAdverse.value); }
  }

  /** Reflecting both prices through 0 and flipping the side keeps both
      signed distances. */
  lemma MirrorDistances(isLong: bool, entry: real, price: real)
    ensures Favourable(!isLong, -entry, -price) == Favourable(isLong, entry, price)
    ensures Adverse(!isLong, -entry, -price) == Adverse(isLong, entry, price)
  {
  }

  /** With a positive size and point value, and fees smaller in size than
      the gross P&L, the net P&L has the sign of the points. */
  lemma FuturesNetSignFollowsPoints(f: Fill, perPoint: real, duration: Option<int>)
    requires f.contracts > 0 && perPoint > 0.0
    requires var g := FuturesMetrics(f, perPoint, duration).pnlGross.value;
      Abs(f.commission + f.slippage) < Abs(g)
    ensures var m := FuturesMetrics(f, perPoint, duration);
      && (m.pnlNet.value > 0.0 <==> m.points.value > 0.0)
      && (m.pnlNet.value < 0.0 <==> m.points.value < 0.0)
  {
    var m := FuturesMetrics(f, perPoint, duration);
    var k := perPoint * f.contracts as real;
    FuturesPnl(f, perPoint, duration);
    assert k > 0.0;
    assert m.pnlGross.value == m.points.value * k;
    if m.points.value > 0.0 {
      assert m.pnlGross.value > 0.0;
    } else if m.points.value < 0.0 {
      assert m.pnlGross.value < 0.0;
    }
  }

  /** One NQ contract long from 18000 to 18050 with the stop at 17980 and
      fees of 4 + 1: 50 points, 1000 gross, 995 net, 400 at risk, 2.5 R. */
  lemma ExampleNasdaqLong(parseDate: DateParser, parseTime: TimeParser)
    ensures var t := RawTrade(Some("NQ"), Some("Long"), Some(18000.0), Some(17980.0), Some(18050.0), None,
                              Some(1), Some(4.0), Some(1.0), None, None, None, None, None, None);
      var m := ComputeMetrics(t, parseDate, parseTime);
      && m.points == Some(50.0) && m.pnlGross == Some(1000.0) && m.pnlNet == Some(995.0)
      && m.riskDollars == Some(400.0) && m.rMultiple == Some(2.5)
  {
    var t := RawTrade(Some("NQ"), Some("Long"), Some(18000.0), Some(17980.0), Some(18050.0), None,
                      Some(1), Some(4.0), Some(1.0), None, None, None, None, None, None);
    assert NormalizeInstrument(Some("NQ")) == Some("NQ") by {
      assert Text.Trim("NQ") == "NQ";
      assert Text.Upper("NQ") == "NQ";
    }
    assert SpecOf(t) == Some(PointValue(20.0));
  }

  /** One lot of USDJPY long from 150.00 to 150.75 with the stop at 149.50:
      75 pips at 1000/150 dollars a pip, 500 gross, 1000/3 at risk, 1.5 R. */
  lemma ExampleUsdJpyLong(parseDate: DateParser, parseTime: TimeParser)
    ensures var t := RawTrade(Some("USDJPY"), Some("Long"), Some(150.0), Some(149.5), Some(150.75), None,
                              Some(1), None, None, None, None, None, None, None, None);
      var m := ComputeMetrics(t, parseDate, parseTime);
      && m.points == Some(75.0) && m.pnlGross == Some(500.0) && m.pnlNet == Some(500.0)
      && m.riskDollars == Some(1000.0 / 3.0) && m.rMultiple == Some(1.5)
  {
    var t := RawTrade(Some("USDJPY"), Some("Long"), Some(150.0), Some(149.5), Some(150.75), None,
                      Some(1), None, None, None, None, None, None, None, None);
    assert NormalizeInstrument(Some("USDJPY")) == Some("USDJPY") by {
      assert Text.Trim("USDJPY") == "USDJPY";
      assert Text.Upper("USDJPY") == "USDJPY";
    }
    ForexConventions("USDJPY");
    assert SpecOf(t) == Some(PipConvention(0.01, PerReferencePrice(1000.0)));
    var duration := DurationMinutes(t.date, t.entryTime, t.exitTime, parseDate, parseTime);
    var f := FillOf(t);
    DispatchForex(t, parseDate, parseTime);
    var m := ForexMetrics(f, 0.01, PerReferencePrice(1000.0), duration);
    assert Favourable(f.isLong, f.entry, f.exit) / 0.01 == 75.0;
    assert PipValue(PerReferencePrice(1000.0), f.entry, f.exit) == 1000.0 / 150.0;
    assert Lots(f.contracts) as real == 1.0;
    assert m.pnlGross == Some(500.0) && m.pnlNet == Some(500.0);
    assert Abs(f.entry - f.stop) / 0.01 == 50.0;
    assert m.riskDollars == Some(1000.0 / 3.0);
  }
}
