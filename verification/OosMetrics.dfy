/** Metrics of a list of net results, the go/no-go verdict, and the pooling of reports across symbols. */
module OosMetrics {
  import opened Common
  import opened Drawdown
  import opened Stats

  const MIN_OOS_TRADES: int := 30

  datatype Metrics = Metrics(
    trades: nat, returnPct: real, expectancy: real, winRate: real, profitFactor: ProfitFactor, maxDrawdownPct: real)

  /** Account value before the first trade and after each trade. */
  function EquityCurve(initial: real, pnls: seq<real>): (c: seq<real>)
    ensures |c| == |pnls| + 1 && c[0] == initial
  {
    if pnls == [] then [initial]
    else EquityCurve(initial, pnls[..|pnls| - 1]) + [initial + Sum(pnls)]
  }

  lemma {:induction false} PeakOfPrefix(curve: seq<real>, longer: seq<real>, j: nat)
    requires j < |curve| && curve <= longer
    ensures Peak(longer, j) == Peak(curve, j)
  {
    if j > 0 {
      PeakOfPrefix(curve, longer, j - 1);
    }
  }

  lemma {:induction false} WorstOfPrefix(curve: seq<real>, longer: seq<real>, n: nat, measure: (real, real) -> real)
    requires 1 <= n <= |curve| && curve <= longer
    ensures Worst(longer, n, measure) == Worst(curve, n, measure)
  {
    PeakOfPrefix(curve, longer, n - 1);
    if n > 1 {
      WorstOfPrefix(curve, longer, n - 1, measure);
    }
  }

  lemma ExtendCurve(curve: seq<real>, value: real, measure: (real, real) -> real)
    requires curve != []
    ensures var longer := curve + [value];
      && Peak(longer, |curve|) == Max(Peak(curve, |curve| - 1), value)
      && Worst(longer, |curve| + 1, measure) ==
           Max(Worst(curve, |curve|, measure), measure(Max(Peak(curve, |curve| - 1), value), value))
  {
    PeakOfPrefix(curve, curve + [value], |curve| - 1);
    WorstOfPrefix(curve, curve + [value], |curve|, measure);
  }

  lemma FallPctCases(peak: real, equity: real)
    ensures FallPct(peak, equity) == if peak > 0.0 then (peak - equity) / peak * 100.0 else 0.0
  {
  }

  /** One pass over the results keeps equity, peak and worst fall; the fall it returns is the drawdown of the whole
      curve. */
  method MaxDrawdownPct(pnls: seq<real>, initial: real) returns (maxDrawdown: real)
    ensures maxDrawdown == MaxFallPct(EquityCurve(initial, pnls))
  {
    var equity, peak := initial, initial;
    maxDrawdown := 0.0;
    ghost var curve := [initial];
    for i := 0 to |pnls|
      invariant curve == EquityCurve(initial, pnls[..i]) && |curve| == i + 1
      invariant equity == initial + Sum(pnls[..i])
      invariant peak == Peak(curve, i) && maxDrawdown == Worst(curve, |curve|, FallPct) && maxDrawdown >= 0.0
    {
      assert pnls[..i + 1][..i] == pnls[..i];
      equity := equity + pnls[i];
      ExtendCurve(curve, equity, FallPct);
      peak := Max(peak, equity);
      FallPctCases(peak, equity);
      hide FallPct, Sum;
      if peak > 0.0 {
        maxDrawdown := Max(maxDrawdown, (peak - equity) / peak * 100.0);
      }
      curve := curve + [equity];
    }
    assert pnls[..|pnls|] == pnls;
  }

  /** Figures that describe this list of results on an account of `initial`. */
  ghost predicate MetricsOf(m: Metrics, pnls: seq<real>, initial: real) {
    && m.trades == |pnls|
    && IsPercent(m.returnPct, Sum(pnls), initial)
    && IsMean(m.expectancy, Sum(pnls), |pnls|)
    && IsMean(m.winRate, WinsPct(pnls), |pnls|)
    && IsPooledFactor(m.profitFactor, pnls)
    && m.maxDrawdownPct == MaxFallPct(EquityCurve(initial, pnls))
  }

  method MetricsFromPnls(pnls: seq<real>, initial: real) returns (m: Metrics)
    ensures MetricsOf(m, pnls, initial)
    ensures pnls == [] ==> m.returnPct == 0.0
  {
    var maxDrawdown := MaxDrawdownPct(pnls, initial);
    if pnls == [] {
      assert Worst([initial], 1, FallPct) == FallPct(initial, initial) == 0.0;
      return Metrics(0, 0.0, 0.0, 0.0, Ratio(0.0), 0.0);
    }
    var expectancy := Average(Sum(pnls), |pnls|);
    var winRate := Average(100.0 * Wins(pnls) as real, |pnls|);
    var returnPct := Percent(Sum(pnls), initial);
    var factor := FactorOf(GrossProfit(pnls), GrossLoss(pnls));
    m := Metrics(|pnls|, returnPct, expectancy, winRate, factor, maxDrawdown);
  }

  // ---- The verdict ----

  datatype Reason =
    | TooFewTrades | ExpectancyNotPositive | ReturnNotPositive | InconsistentFolds | Untestable | NotSignificant

  datatype Verdict = Verdict(validated: bool, reasons: set<Reason>)

  const P_VALUE_THRESHOLD: real := 0.05

  /** The significance bar divided by the number of tests of the same run. */
  function CorrectedThreshold(threshold: real, numTests: int): real {
    threshold / (if numTests >= 1 then numTests else 1) as real
  }

  function EdgeVerdict(trades: int, expectancy: real, returnPct: real, consistency: real,
                       pValue: Option<real>, numTests: int, requireSignificance: bool, threshold: real): Verdict {
    var reasons :=
      (if trades < MIN_OOS_TRADES then {TooFewTrades} else {}) +
      (if expectancy <= 0.0 then {ExpectancyNotPositive} else {}) +
      (if returnPct <= 0.0 then {ReturnNotPositive} else {}) +
      (if consistency <= 0.5 then {InconsistentFolds} else {}) +
      (if !requireSignificance then {}
       else match pValue
         case None => {Untestable}
         case Some(p) => if p > CorrectedThreshold(threshold, numTests) then {NotSignificant} else {});
    Verdict(reasons == {}, reasons)
  }

  /** There is a p-value, and taken once for every test of the run it stays within the threshold. */
  predicate Significant(pValue: Option<real>, numTests: int, threshold: real) {
    pValue.Some? && pValue.value * (if numTests > 1 then numTests as real else 1.0) <= threshold
  }

  lemma BarIsDivided(p: real, numTests: int, threshold: real)
    ensures p <= CorrectedThreshold(threshold, numTests) <==> Significant(Some(p), numTests, threshold)
  {
    var n := (if numTests > 1 then numTests else 1) as real;
    assert CorrectedThreshold(threshold, numTests) == threshold / n;
    DivTimes(threshold, n);
    ScaleOrder(p, threshold / n, n);
  }

  /** A p-value of 4% validates an edge tested alone, and not one of ten tested in one run. */
  lemma TenTestsRaiseTheBar()
    ensures EdgeVerdict(30, 1.0, 1.0, 1.0, Some(0.04), 1, true, P_VALUE_THRESHOLD).validated
    ensures !EdgeVerdict(30, 1.0, 1.0, 1.0, Some(0.04), 10, true, P_VALUE_THRESHOLD).validated
  {
    ValidatedIff(30, 1.0, 1.0, 1.0, Some(0.04), 1, true, P_VALUE_THRESHOLD);
    ValidatedIff(30, 1.0, 1.0, 1.0, Some(0.04), 10, true, P_VALUE_THRESHOLD);
    hide EdgeVerdict;
  }

  lemma ValidatedIff(trades: int, expectancy: real, returnPct: real, consistency: real,
                     pValue: Option<real>, numTests: int, requireSignificance: bool, threshold: real)
    ensures EdgeVerdict(trades, expectancy, returnPct, consistency, pValue, numTests, requireSignificance,
                        threshold).validated
      <==> (trades >= 30 && expectancy > 0.0 && returnPct > 0.0 && consistency > 0.5
            && (requireSignificance ==> Significant(pValue, numTests, threshold)))
  {
    hide CorrectedThreshold, Significant;
    NoValueIsNotSignificant(numTests, threshold);
    if pValue.Some? {
      BarIsDivided(pValue.value, numTests, threshold);
    }
  }

  lemma NoValueIsNotSignificant(numTests: int, threshold: real)
    ensures !Significant(None, numTests, threshold)
  {
  }

  /** Testing more strategies in one run only raises the bar. */
  lemma MoreTestsNeverValidate(trades: int, expectancy: real, returnPct: real, consistency: real, pValue: Option<real>,
                               fewer: int, more: int, requireSignificance: bool, threshold: real)
    requires fewer <= more && threshold >= 0.0
    requires EdgeVerdict(trades, expectancy, returnPct, consistency, pValue, more, requireSignificance,
                         threshold).validated
    ensures EdgeVerdict(trades, expectancy, returnPct, consistency, pValue, fewer, requireSignificance,
                        threshold).validated
  {
    ValidatedIff(trades, expectancy, returnPct, consistency, pValue, more, requireSignificance, threshold);
    ValidatedIff(trades, expectancy, returnPct, consistency, pValue, fewer, requireSignificance, threshold);
    hide EdgeVerdict;
    if requireSignificance {
      FewerTestsAreEasier(pValue.value, fewer, more, threshold);
    }
  }

  lemma FewerTestsAreEasier(p: real, fewer: int, more: int, threshold: real)
    requires fewer <= more && threshold >= 0.0 && Significant(Some(p), more, threshold)
    ensures Significant(Some(p), fewer, threshold)
  {
    var a, b := if fewer > 1 then fewer as real else 1.0, if more > 1 then more as real else 1.0;
    if p > 0.0 {
      ScaleOrder(a, b, p);
    } else {
      ScaleOrder(p, 0.0, a);
    }
  }

  // ---- Pooling across symbols ----

  datatype Report = Report(
    oosTrades: nat, returnPct: real, expectancy: real, winRate: real, profitFactor: ProfitFactor, maxDrawdownPct: real,
    foldConsistency: real, pnls: seq<real>)

  /** Zero by convention without results. */
  ghost predicate IsPooledFactor(f: ProfitFactor, pnls: seq<real>) {
    if pnls == [] then f == Ratio(0.0) else IsFactor(f, GrossProfit(pnls), GrossLoss(pnls))
  }

  /** A report whose figures describe its own list of results, on an account of `initial`. */
  ghost predicate Describes(r: Report, initial: real) {
    && r.oosTrades == |r.pnls|
    && IsMean(r.expectancy, Sum(r.pnls), |r.pnls|)
    && IsMean(r.winRate, WinsPct(r.pnls), |r.pnls|)
    && IsPercent(r.returnPct, Sum(r.pnls), initial)
    && IsPooledFactor(r.profitFactor, r.pnls)
    && r.maxDrawdownPct == MaxFallPct(EquityCurve(initial, r.pnls))
  }

  function TotalTrades(rs: seq<Report>): nat {
    if rs == [] then 0 else TotalTrades(rs[..|rs| - 1]) + rs[|rs| - 1].oosTrades
  }

  /** `sum(f(r) for r in reports)`. */
  function SumBy(rs: seq<Report>, f: Report -> real): real {
    if rs == [] then 0.0 else SumBy(rs[..|rs| - 1], f) + f(rs[|rs| - 1])
  }

  function ReturnOf(r: Report): real {
    r.returnPct
  }

  function WeightedExpectancy(r: Report): real {
    r.expectancy * r.oosTrades as real
  }

  function WeightedWinRate(r: Report): real {
    r.winRate * r.oosTrades as real
  }

  /** A sum weighted by trades over the number of trades. */
  function OverTrades(weighted: real, trades: nat): real {
    if trades == 0 then 0.0 else weighted / trades as real
  }

  function Pool(rs: seq<Report>): seq<real> {
    if rs == [] then [] else Pool(rs[..|rs| - 1]) + rs[|rs| - 1].pnls
  }

  function Consistencies(rs: seq<Report>): seq<real> {
    if rs == [] then []
    else Consistencies(rs[..|rs| - 1]) + (if rs[|rs| - 1].oosTrades > 0 then [rs[|rs| - 1].foldConsistency] else [])
  }

  function AverageConsistency(rs: seq<Report>): real {
    var cs := Consistencies(rs);
    if cs == [] then 0.0 else Sum(cs) / |cs| as real
  }

  predicate Traded(r: Report) {
    r.oosTrades > 0
  }

  function ConsistencyOf(r: Report): real {
    r.foldConsistency
  }

  lemma {:induction false} ConsistenciesOfTraders(rs: seq<Report>)
    ensures |Consistencies(rs)| == |Filter(rs, Traded)|
    ensures Sum(Consistencies(rs)) == SumBy(Filter(rs, Traded), ConsistencyOf)
  {
    if rs != [] {
      var front, last := rs[..|rs| - 1], rs[|rs| - 1];
      ConsistenciesOfTraders(front);
      assert rs == front + [last];
      FilterOneMore(front, last, Traded);
      OneMoreTrader(Consistencies(front), Filter(front, Traded), last);
      hide Filter, Sum, SumBy;
    }
  }

  lemma OneMoreTrader(cs: seq<real>, kept: seq<Report>, r: Report)
    ensures Sum(cs + [r.foldConsistency]) == Sum(cs) + r.foldConsistency && cs + [] == cs && kept + [] == kept
    ensures SumBy(kept + [r], ConsistencyOf) == SumBy(kept, ConsistencyOf) + r.foldConsistency
  {
    assert (cs + [r.foldConsistency])[..|cs|] == cs && (kept + [r])[..|kept|] == kept;
  }

  /** Only symbols that traded count for the consistency of an aggregate, all alike. */
  lemma ConsistencyIsAveraged(rs: seq<Report>)
    ensures IsMean(AverageConsistency(rs), SumBy(Filter(rs, Traded), ConsistencyOf), |Filter(rs, Traded)|)
  {
    ConsistenciesOfTraders(rs);
    var cs := Consistencies(rs);
    if cs != [] {
      DivTimes(Sum(cs), |cs| as real);
    }
    hide Filter, SumBy, Consistencies;
    assert Filter(rs, Traded) == [] ==> SumBy(Filter(rs, Traded), ConsistencyOf) == 0.0 by { NothingSummed(); }
  }

  lemma NothingSummed()
    ensures SumBy([], ConsistencyOf) == 0.0
  {
  }

  datatype Aggregate = Aggregate(
    trades: nat, expectancy: real, returnPct: real, consistency: real, winRate: real, pValue: Option<real>,
    verdict: Verdict)

  /** The universe-level figures before rounding; the p-value is some function of the pooled results. */
  function AggregateReports(rs: seq<Report>, significance: seq<real> -> Option<real>, numTests: int,
                            require: bool): Aggregate {
    var trades := TotalTrades(rs);
    var expectancy := OverTrades(SumBy(rs, WeightedExpectancy), trades);
    var returnPct := SumBy(rs, ReturnOf);
    var p := significance(Pool(rs));
    Aggregate(trades, expectancy, returnPct, AverageConsistency(rs), OverTrades(SumBy(rs, WeightedWinRate), trades), p,
              EdgeVerdict(trades, expectancy, returnPct, AverageConsistency(rs), p, numTests, require,
                          P_VALUE_THRESHOLD))
  }

  lemma {:induction false} TradesArePooled(rs: seq<Report>, initial: real)
    requires forall r :: r in rs ==> Describes(r, initial)
    ensures TotalTrades(rs) == |Pool(rs)|
  {
    if rs != [] {
      var front, last := rs[..|rs| - 1], rs[|rs| - 1];
      assert last in rs && forall r :: r in front ==> r in rs;
      TradesArePooled(front, initial);
    }
  }

  function WinsPct(pnls: seq<real>): real {
    100.0 * Wins(pnls) as real
  }

  lemma ReportTotals(r: Report, initial: real)
    requires Describes(r, initial)
    ensures WeightedExpectancy(r) == Sum(r.pnls) && WeightedWinRate(r) == WinsPct(r.pnls)
  {
    MeanTimesCount(r.expectancy, Sum(r.pnls), |r.pnls|);
    MeanTimesCount(r.winRate, WinsPct(r.pnls), |r.pnls|);
  }

  lemma OneMoreReport(front: seq<Report>, last: Report, f: Report -> real)
    ensures SumBy(front + [last], f) == SumBy(front, f) + f(last)
    ensures Pool(front + [last]) == Pool(front) + last.pnls
  {
    assert (front + [last])[..|front|] == front;
  }

  /** Weighting by trades and adding up report by report gives the sum and the wins of the pool. */
  lemma {:induction false} WeightedSumsArePooled(rs: seq<Report>, initial: real)
    requires forall r :: r in rs ==> Describes(r, initial)
    ensures SumBy(rs, WeightedExpectancy) == Sum(Pool(rs))
    ensures SumBy(rs, WeightedWinRate) == WinsPct(Pool(rs))
  {
    if rs != [] {
      var front, last := rs[..|rs| - 1], rs[|rs| - 1];
      assert rs == front + [last] && last in rs;
      hide *;
      WeightedSumsArePooled(front, initial);
      ReportTotals(last, initial);
      OneMoreReport(front, last, WeightedExpectancy);
      OneMoreReport(front, last, WeightedWinRate);
      SumAppend(Pool(front), last.pnls);
      WinsPctAppend(Pool(front), last.pnls);
    }
  }

  lemma WinsPctAppend(xs: seq<real>, ys: seq<real>)
    ensures WinsPct(xs + ys) == WinsPct(xs) + WinsPct(ys)
  {
    WinsAppend(xs, ys);
  }

  lemma PercentOf(pct: real, part: real, whole: real)
    requires whole > 0.0
    ensures pct * whole == part * 100.0 <==> pct == part / whole * 100.0
  {
    DivTimes(part, whole);
    ScaleOrder(pct, part / whole * 100.0, whole);
    ScaleOrder(part / whole * 100.0, pct, whole);
  }

  function AsPercent(part: real, whole: real): real
    requires whole > 0.0
  {
    part / whole * 100.0
  }

  lemma ReturnIsPercent(r: Report, initial: real)
    requires initial > 0.0 && Describes(r, initial)
    ensures ReturnOf(r) == AsPercent(Sum(r.pnls), initial)
  {
    PercentOf(r.returnPct, Sum(r.pnls), initial);
  }

  lemma {:induction false} ReturnsArePooled(rs: seq<Report>, initial: real)
    requires initial > 0.0 && forall r :: r in rs ==> ReturnOf(r) == AsPercent(Sum(r.pnls), initial)
    ensures SumBy(rs, ReturnOf) == AsPercent(Sum(Pool(rs)), initial)
  {
    if rs == [] {
      PercentAdds(0.0, 0.0, initial);
    } else {
      var front, last := rs[..|rs| - 1], rs[|rs| - 1];
      assert rs == front + [last] && last in rs;
      hide *;
      ReturnsArePooled(front, initial);
      OneMoreReport(front, last, ReturnOf);
      SumAppend(Pool(front), last.pnls);
      PercentAdds(Sum(Pool(front)), Sum(last.pnls), initial);
    }
  }

  lemma PercentAdds(a: real, b: real, whole: real)
    requires whole > 0.0
    ensures AsPercent(a + b, whole) == AsPercent(a, whole) + AsPercent(b, whole)
  {
  }

  lemma OverTradesIsMean(weighted: real, trades: nat)
    requires trades == 0 ==> weighted == 0.0
    ensures IsMean(OverTrades(weighted, trades), weighted, trades)
  {
    if trades > 0 {
      DivTimes(weighted, trades as real);
    }
  }

  lemma SignsAgree(mean: real, sum: real, n: nat, pct: real, initial: real)
    requires IsMean(mean, sum, n) && IsPercent(pct, sum, initial) && initial > 0.0
    ensures mean <= 0.0 <==> pct <= 0.0
  {
    if n > 0 {
      SignOfProduct(-mean, n as real);
      assert (-mean) * n as real == -sum;
    }
    SignOfProduct(-pct, initial);
    assert (-pct) * initial == -sum * 100.0;
  }

  lemma PooledExpectancy(rs: seq<Report>, initial: real)
    requires forall r :: r in rs ==> Describes(r, initial)
    ensures IsMean(OverTrades(SumBy(rs, WeightedExpectancy), TotalTrades(rs)), Sum(Pool(rs)), |Pool(rs)|)
  {
    WeightedSumsArePooled(rs, initial);
    TradesArePooled(rs, initial);
    EmptyPool(Pool(rs));
    OverTradesIsMean(Sum(Pool(rs)), TotalTrades(rs));
  }

  lemma PooledWinRate(rs: seq<Report>, initial: real)
    requires forall r :: r in rs ==> Describes(r, initial)
    ensures IsMean(OverTrades(SumBy(rs, WeightedWinRate), TotalTrades(rs)), WinsPct(Pool(rs)), |Pool(rs)|)
  {
    WeightedSumsArePooled(rs, initial);
    TradesArePooled(rs, initial);
    EmptyPool(Pool(rs));
    OverTradesIsMean(WinsPct(Pool(rs)), TotalTrades(rs));
  }

  lemma PooledReturn(rs: seq<Report>, initial: real)
    requires initial > 0.0 && forall r :: r in rs ==> Describes(r, initial)
    ensures IsPercent(SumBy(rs, ReturnOf), Sum(Pool(rs)), initial)
  {
    hide *;
    forall r | r in rs ensures ReturnOf(r) == AsPercent(Sum(r.pnls), initial) {
      ReturnIsPercent(r, initial);
    }
    ReturnsArePooled(rs, initial);
    AsPercentIsPercent(Sum(Pool(rs)), initial);
  }

  lemma EmptyPool(pool: seq<real>)
    ensures |pool| == 0 ==> Sum(pool) == 0.0 && WinsPct(pool) == 0.0
  {
  }

  lemma AsPercentIsPercent(part: real, whole: real)
    requires whole > 0.0
    ensures IsPercent(AsPercent(part, whole), part, whole)
  {
    PercentOf(AsPercent(part, whole), part, whole);
  }

  /** With a common initial capital the trade-weighted figures are those of all trades pooled, and the
      expectancy and return conditions of the verdict always fail together. */
  lemma AggregatesArePooled(rs: seq<Report>, initial: real, significance: seq<real> -> Option<real>, numTests: int,
                            require: bool)
    requires initial > 0.0 && forall r :: r in rs ==> Describes(r, initial)
    ensures var a := AggregateReports(rs, significance, numTests, require);
      && a.trades == |Pool(rs)|
      && IsMean(a.expectancy, Sum(Pool(rs)), |Pool(rs)|)
      && IsMean(a.winRate, WinsPct(Pool(rs)), |Pool(rs)|)
      && IsPercent(a.returnPct, Sum(Pool(rs)), initial)
      && IsMean(a.consistency, SumBy(Filter(rs, Traded), ConsistencyOf), |Filter(rs, Traded)|)
      && (a.expectancy <= 0.0 <==> a.returnPct <= 0.0)
      && (ExpectancyNotPositive in a.verdict.reasons <==> ReturnNotPositive in a.verdict.reasons)
  {
    TradesArePooled(rs, initial);
    PooledExpectancy(rs, initial);
    PooledWinRate(rs, initial);
    PooledReturn(rs, initial);
    ConsistencyIsAveraged(rs);
    var a := AggregateReports(rs, significance, numTests, require);
    hide Describes, OverTrades, EdgeVerdict, IsMean, IsPercent, SumBy, Pool, Sum, WinsPct, AverageConsistency, Filter;
    SignsAgree(a.expectancy, Sum(Pool(rs)), |Pool(rs)|, a.returnPct, initial);
    ReasonsNameTheirCause(a.trades, a.expectancy, a.returnPct, a.consistency, a.pValue, numTests, require,
                          P_VALUE_THRESHOLD);
  }

  lemma ReasonsNameTheirCause(trades: int, expectancy: real, returnPct: real, consistency: real,
                              pValue: Option<real>, numTests: int, require: bool, threshold: real)
    ensures var reasons := EdgeVerdict(trades, expectancy, returnPct, consistency, pValue, numTests, require,
                                       threshold).reasons;
      && (ExpectancyNotPositive in reasons <==> expectancy <= 0.0)
      && (ReturnNotPositive in reasons <==> returnPct <= 0.0)
      && (TooFewTrades in reasons <==> trades < MIN_OOS_TRADES)
      && (InconsistentFolds in reasons <==> consistency <= 0.5)
      && (Untestable in reasons <==> require && pValue.None?)
      && (NotSignificant in reasons <==> require && pValue.Some? && !Significant(pValue, numTests, threshold))
  {
    hide CorrectedThreshold, Significant;
    if pValue.Some? {
      BarIsDivided(pValue.value, numTests, threshold);
    }
  }

  // ---- Rounded publication ----

  /** `round(x, digits)` for a scale of `10 ** digits`. */
  function RoundTo(x: real, scale: int): real
    requires scale > 0
  {
    RoundHalfEven(x * scale as real) as real / scale as real
  }

  lemma RoundToAbove(x: real, scale: int, t: int)
    requires scale > 0 && t % 2 == 0
    ensures RoundTo(x, scale) > t as real / scale as real <==> x * scale as real > t as real + 0.5
  {
    RoundAbove(x * scale as real, t);
    QuotientOrder(RoundHalfEven(x * scale as real) as real, scale as real, t as real, scale as real);
    ScaleOrder(RoundHalfEven(x * scale as real) as real, t as real, scale as real);
  }

  /** The verdict a strategy version re-derives from the published, rounded figures. */
  function RederivedVerdict(a: Aggregate, numTests: int, require: bool): Verdict {
    EdgeVerdict(a.trades, RoundTo(a.expectancy, 10000), RoundTo(a.returnPct, 1000), RoundTo(a.consistency, 1000),
                a.pValue, numTests, require, P_VALUE_THRESHOLD)
  }

  /** Rounding is conservative: the re-derived verdict is VALIDATED exactly when the unrounded one is and each
      figure clears its bar by more than half a unit of its last published digit. */
  lemma RoundingIsConservative(rs: seq<Report>, significance: seq<real> -> Option<real>, numTests: int, require: bool)
    ensures var a := AggregateReports(rs, significance, numTests, require);
      RederivedVerdict(a, numTests, require).validated <==>
        (a.verdict.validated && a.expectancy > 0.00005 && a.returnPct > 0.0005 && a.consistency > 0.5005)
  {
    var a := AggregateReports(rs, significance, numTests, require);
    RoundToAbove(a.expectancy, 10000, 0);
    RoundToAbove(a.returnPct, 1000, 0);
    RoundToAbove(a.consistency, 1000, 500);
    ValidatedIff(a.trades, a.expectancy, a.returnPct, a.consistency, a.pValue, numTests, require, P_VALUE_THRESHOLD);
    ValidatedIff(a.trades, RoundTo(a.expectancy, 10000), RoundTo(a.returnPct, 1000), RoundTo(a.consistency, 1000),
                 a.pValue, numTests, require, P_VALUE_THRESHOLD);
    hide Significant, EdgeVerdict, RoundTo, OverTrades, AverageConsistency, SumBy, TotalTrades, Pool;
  }

  /** A thin but real edge is lost by publication: 30 trades averaging 0.00004 validate, their rounded figures do
      not. */
  lemma ThinEdgeIsRoundedAway()
    ensures EdgeVerdict(30, 0.00004, 1.0, 1.0, None, 1, false, P_VALUE_THRESHOLD).validated
    ensures !EdgeVerdict(30, RoundTo(0.00004, 10000), 1.0, 1.0, None, 1, false, P_VALUE_THRESHOLD).validated
  {
    RoundToAbove(0.00004, 10000, 0);
  }
}
