/** The deterministic risk rules, the kill switch and the final risk gate. */
module RiskCompliance {
  import opened Common
  import opened Drawdown
  import opened VerdictCache
  import E = Eligibility

  datatype Position = Position(symbol: string, quantity: real, entryPrice: real, currentPrice: Option<real>)

  datatype Portfolio = Portfolio(capital: Option<real>, positions: seq<Position>,
                                 correlations: map<string, map<string, real>>)

  datatype DailyStats = DailyStats(trades: int, pnl: real, maxDrawdown: real, simulation: bool)

  datatype Limits = Limits(
    maxDailyTrades: int, maxDailyLoss: real, maxPositionPct: real, minRiskReward: real, maxStopPct: real,
    maxPositions: int, maxExposurePct: real, maxDrawdownPct: real, maxSectorPct: real, maxSectorPositions: int,
    maxCorrelation: real, forceWindow: bool, forceNeedsMarker: bool)

  /** What the rules read besides the candidate. The clock enters as whether it is inside trading hours. */
  datatype World = World(
    portfolio: Portfolio, stats: DailyStats, limits: Limits, sector: string -> string, inHours: bool,
    switchedOff: bool, mode: string,
    files: seq<E.Record>, environment: E.Environment, regime: E.Regime, paperGate: bool)

  datatype Rule =
    | DailyTradeLimit | DailyLossLimit | PositionSize | RiskReward | StopLossPct | MaxPositions | TotalExposure
    | TradingHours | Drawdown | DuplicatePosition | LowConfidence | SectorExposure | CorrelatedPositions
    | PairwiseCorrelation | StrategyEligibility | ModeIsolation
    | MtfConfirmation | EntryQuality | ShadowOnly | KillSwitch | HardBudget | SharedContext

  datatype Check = Check(passed: bool, rule: Rule, blocking: bool)

  function Capital(p: Portfolio): real {
    if p.capital.Some? then p.capital.value else 100000.0
  }

  function Absolute(x: real): real {
    if x < 0.0 then -x else x
  }

  /** Market value, at cost when no current price is known. */
  function Value(p: Position): real {
    p.quantity * if p.currentPrice.Some? && p.currentPrice.value != 0.0 then p.currentPrice.value else p.entryPrice
  }

  function Exposure(positions: seq<Position>): real {
    if positions == [] then 0.0
    else Exposure(positions[..|positions| - 1]) + Value(positions[|positions| - 1])
  }

  function CandidateNotional(s: Signal, capital: real): real {
    if s.quantity > 0 then s.entryPrice * s.quantity as real else capital * Max(0.0, s.positionPct) / 100.0
  }

  function ProjectedPct(s: Signal, p: Portfolio): real {
    var capital := Capital(p);
    if capital > 0.0 then (Exposure(p.positions) + CandidateNotional(s, capital)) / capital * 100.0 else 100.0
  }

  function DrawdownPct(w: World): real {
    if Capital(w.portfolio) > 0.0 then w.stats.maxDrawdown / Capital(w.portfolio) * 100.0 else 0.0
  }

  /** What a position adds to a sector. */
  function SectorPart(p: Position, sector: string, sectorOf: string -> string): real {
    if sectorOf(p.symbol) == sector
    then p.quantity * (if p.currentPrice.Some? then p.currentPrice.value else p.entryPrice) else 0.0
  }

  function SectorValue(positions: seq<Position>, sector: string, sectorOf: string -> string): real {
    if positions == [] then 0.0
    else
      SectorValue(positions[..|positions| - 1], sector, sectorOf)
        + SectorPart(positions[|positions| - 1], sector, sectorOf)
  }

  function SectorPct(p: Portfolio, sector: string, sectorOf: string -> string): real {
    if Capital(p) <= 0.0 then 0.0 else SectorValue(p.positions, sector, sectorOf) / Capital(p) * 100.0
  }

  function InSector(sector: string, sectorOf: string -> string): Position -> bool {
    (p: Position) => sectorOf(p.symbol) == sector
  }

  /** The largest correlation in absolute value with another open position for which one is known. */
  function WorstCorrelation(positions: seq<Position>, symbol: string, known: map<string, real>): (worst: real)
    ensures worst >= 0.0
  {
    if positions == [] then 0.0
    else
      var other := positions[|positions| - 1].symbol;
      var rest := WorstCorrelation(positions[..|positions| - 1], symbol, known);
      if other != symbol && other in known then Max(rest, Absolute(known[other])) else rest
  }

  function CorrelationsOf(p: Portfolio, symbol: string): map<string, real> {
    if symbol in p.correlations then p.correlations[symbol] else map[]
  }

  /** The two confidences averaged; a missing or zero validation confidence leaves the candidate's own. */
  function AverageConfidence(s: Signal): real {
    if s.validation.Some? && s.validation.value.confidence != 0.0
    then (s.confidence + s.validation.value.confidence) / 2.0 else s.confidence
  }

  function QueryOf(s: Signal, w: World): E.Query {
    E.Query(s.grain, w.environment, w.regime,
            if s.originalConfidence.Some? then s.originalConfidence.value else s.confidence)
  }

  function Assess(s: Signal, w: World): E.Decision {
    E.Evaluate(w.files, QueryOf(s, w), w.paperGate)
  }

  predicate Forced(w: World) {
    w.limits.forceWindow && (!w.limits.forceNeedsMarker || w.stats.simulation)
  }

  /** The checks on the candidate and the portfolio, before the eligibility backstop. */
  function PortfolioChecks(s: Signal, w: World): seq<Check> {
    var l, p := w.limits, w.portfolio;
    [ Check(w.stats.trades < l.maxDailyTrades, DailyTradeLimit, true),
      Check(w.stats.pnl > -l.maxDailyLoss, DailyLossLimit, true),
      Check(s.positionPct <= l.maxPositionPct, PositionSize, true),
      Check((if s.riskReward.Some? then s.riskReward.value else 0.0) >= l.minRiskReward, RiskReward, true) ] +
    (if s.entryPrice > 0.0
     then [Check(Absolute(s.entryPrice - s.stopLoss) / s.entryPrice * 100.0 <= l.maxStopPct, StopLossPct, true)]
     else []) +
    [ Check(|p.positions| < l.maxPositions, MaxPositions, true),
      Check(ProjectedPct(s, p) <= l.maxExposurePct, TotalExposure, true),
      Check(Forced(w) || w.inHours, TradingHours, true),
      Check(DrawdownPct(w) < l.maxDrawdownPct, Drawdown, true),
      Check(!(exists q :: q in p.positions && q.symbol == s.symbol), DuplicatePosition, true),
      Check(AverageConfidence(s) >= 0.5, LowConfidence, false),
      Check(SectorPct(p, w.sector(s.symbol), w.sector) <= l.maxSectorPct, SectorExposure, true),
      Check(|Filter(p.positions, InSector(w.sector(s.symbol), w.sector))| < l.maxSectorPositions, CorrelatedPositions,
            true),
      Check(WorstCorrelation(p.positions, s.symbol, CorrelationsOf(p, s.symbol)) <= l.maxCorrelation,
            PairwiseCorrelation, true) ]
  }

  predicate BackstopApplies(s: Signal, enforce: bool) {
    enforce && s.grain.strategy != ""
  }

  function RunRiskChecks(s: Signal, w: World, enforce: bool): seq<Check> {
    PortfolioChecks(s, w) +
    if BackstopApplies(s, enforce) then [Check(Assess(s, w).executionAllowed, StrategyEligibility, true)] else []
  }

  /** The candidate as the backstop leaves it: it carries the decision it was checked with. */
  function Recorded(s: Signal, d: E.Decision): Signal {
    s.(grain := d.grain, originalConfidence := Some(d.original), decision := Some(d))
  }

  function AfterChecks(s: Signal, w: World, enforce: bool): Signal {
    if BackstopApplies(s, enforce) then Recorded(s, Assess(s, w)) else s
  }

  function Blocks(c: Check): bool {
    !c.passed && c.blocking
  }

  function Failures(checks: seq<Check>): seq<Check> {
    Filter(checks, Blocks)
  }

  // ---- Kill switch ----

  predicate KillConditions(w: World) {
    || w.stats.pnl <= -w.limits.maxDailyLoss
    || DrawdownPct(w) >= w.limits.maxDrawdownPct
  }

  predicate KillSwitchOn(w: World) {
    w.switchedOff || KillConditions(w)
  }

  /** The drawdown stays below its share of the capital; without capital it is taken as zero. */
  predicate DrawdownBelow(w: World) {
    if Capital(w.portfolio) > 0.0 then w.stats.maxDrawdown * 100.0 < w.limits.maxDrawdownPct * Capital(w.portfolio)
    else 0.0 < w.limits.maxDrawdownPct
  }

  lemma DrawdownOnFields(w: World)
    ensures DrawdownPct(w) < w.limits.maxDrawdownPct <==> DrawdownBelow(w)
  {
    var capital := Capital(w.portfolio);
    if capital > 0.0 {
      ShareBelow(w.stats.maxDrawdown, capital, w.limits.maxDrawdownPct);
    }
  }

  lemma ShareBelow(x: real, capital: real, limit: real)
    requires capital > 0.0
    ensures x / capital * 100.0 < limit <==> x * 100.0 < limit * capital
  {
    DivTimes(x, capital);
    ScaleOrder(limit, x / capital * 100.0, capital);
    assert x / capital * 100.0 * capital == x * 100.0;
  }

  /** On the fields: the kill switch is on when it was thrown, when the day's result is at most the negated loss limit,
      or when the drawdown reaches its share of the capital. */
  lemma KillSwitchIff(w: World)
    ensures KillConditions(w) <==> w.stats.pnl <= -w.limits.maxDailyLoss || !DrawdownBelow(w)
    ensures KillSwitchOn(w) <==> w.switchedOff || w.stats.pnl <= -w.limits.maxDailyLoss || !DrawdownBelow(w)
  {
    DrawdownOnFields(w);
    hide DrawdownPct, DrawdownBelow;
  }

  lemma ChecksWithoutFailures(checks: seq<Check>)
    ensures Failures(checks) == [] <==> forall c :: c in checks ==> !Blocks(c)
  {
    FilterMembers(checks, Blocks);
    if c :| c in checks && Blocks(c) {
      assert c in Failures(checks);
    }
    if Failures(checks) != [] {
      assert Failures(checks)[0] in Failures(checks);
    }
  }

  lemma CheckIsMade(s: Signal, w: World, enforce: bool)
    ensures Check(w.stats.pnl > -w.limits.maxDailyLoss, DailyLossLimit, true) in RunRiskChecks(s, w, enforce)
    ensures Check(DrawdownPct(w) < w.limits.maxDrawdownPct, Drawdown, true) in RunRiskChecks(s, w, enforce)
    ensures Check(Forced(w) || w.inHours, TradingHours, true) in RunRiskChecks(s, w, enforce)
  {
    hide DrawdownPct, ProjectedPct, SectorPct, WorstCorrelation, AverageConfidence, Absolute, InSector, Forced, Filter,
      Assess, CorrelationsOf;
    var checks, stop := RunRiskChecks(s, w, enforce), if s.entryPrice > 0.0 then 1 else 0;
    assert checks[1] == Check(w.stats.pnl > -w.limits.maxDailyLoss, DailyLossLimit, true);
    assert checks[6 + stop] == Check(Forced(w) || w.inHours, TradingHours, true);
    assert checks[7 + stop] == Check(DrawdownPct(w) < w.limits.maxDrawdownPct, Drawdown, true);
  }

  /** The loss and drawdown conditions of the kill switch fail every candidate at every risk gate, whatever the
      candidate is and whether or not the eligibility backstop is enforced. */
  lemma KillConditionsFailEverySignal(s: Signal, w: World, enforce: bool)
    requires w.stats.pnl <= -w.limits.maxDailyLoss || !DrawdownBelow(w)
    ensures Failures(RunRiskChecks(s, w, enforce)) != []
  {
    KillSwitchIff(w);
    CheckIsMade(s, w, enforce);
    ChecksWithoutFailures(RunRiskChecks(s, w, enforce));
    hide RunRiskChecks, DrawdownPct;
  }

  // ---- What stands in for what is missing ----

  /** A portfolio without a capital figure is judged as one of 100000. */
  lemma MissingCapitalIsAssumed(s: Signal, w: World, enforce: bool)
    requires w.portfolio.capital.None?
    ensures var assumed := w.(portfolio := w.portfolio.(capital := Some(100000.0)));
      && RunRiskChecks(s, w, enforce) == RunRiskChecks(s, assumed, enforce)
      && (KillSwitchOn(w) <==> KillSwitchOn(assumed))
  {
    var assumed := w.(portfolio := w.portfolio.(capital := Some(100000.0)));
    assert Assess(s, assumed) == Assess(s, w);
    assert DrawdownPct(assumed) == DrawdownPct(w) && ProjectedPct(s, assumed.portfolio) == ProjectedPct(s, w.portfolio);
    hide Assess, DrawdownPct, ProjectedPct, SectorValue, WorstCorrelation, AverageConfidence, Absolute, InSector,
      Filter;
  }

  /** The exposure is a sum over the positions, each at its current price, or at cost when that is missing or zero. */
  lemma {:induction false} ExposureIsSum(xs: seq<Position>, p: Position, ys: seq<Position>)
    ensures Exposure(xs + [p]) == Exposure(xs) +
      p.quantity * (if p.currentPrice in {None, Some(0.0)} then p.entryPrice else p.currentPrice.value)
    ensures Exposure(xs + ys) == Exposure(xs) + Exposure(ys)
    decreases |ys|
  {
    assert (xs + [p])[..|xs|] == xs;
    if ys == [] {
      assert xs + ys == xs;
    } else {
      ExposureIsSum(xs, p, ys[..|ys| - 1]);
      assert (xs + ys)[..|xs + ys| - 1] == xs + ys[..|ys| - 1];
    }
  }

  /** The value of a sector is a sum over its own positions, but there a current price of zero counts as zero. */
  lemma {:induction false} SectorIsSum(xs: seq<Position>, p: Position, ys: seq<Position>, sector: string,
                                       sectorOf: string -> string)
    ensures SectorValue(xs + [p], sector, sectorOf) == SectorValue(xs, sector, sectorOf) +
      if sectorOf(p.symbol) != sector || p.currentPrice == Some(0.0) then 0.0
      else p.quantity * (if p.currentPrice.None? then p.entryPrice else p.currentPrice.value)
    ensures SectorValue(xs + ys, sector, sectorOf) ==
      SectorValue(xs, sector, sectorOf) + SectorValue(ys, sector, sectorOf)
    decreases |ys|
  {
    assert (xs + [p])[..|xs|] == xs;
    if ys == [] {
      assert xs + ys == xs;
    } else {
      SectorIsSum(xs, p, ys[..|ys| - 1], sector, sectorOf);
      assert (xs + ys)[..|xs + ys| - 1] == xs + ys[..|ys| - 1];
    }
  }

  /** The one rule that only warns: the candidate's confidence, averaged with that of its review if it has one that is
      not zero, is below one half. */
  lemma LowConfidenceIff(s: Signal, w: World, enforce: bool)
    ensures Check(false, LowConfidence, false) in RunRiskChecks(s, w, enforce) <==>
      if s.validation.Some? && s.validation.value.confidence != 0.0
      then s.confidence + s.validation.value.confidence < 1.0 else 2.0 * s.confidence < 1.0
  {
    hide DrawdownPct, ProjectedPct, SectorPct, WorstCorrelation, Absolute, InSector, Forced, Filter, Assess,
      CorrelationsOf;
  }

  // ---- Opinions do not block ----

  lemma {:induction false} FilterPointwise(xs: seq<Check>, ys: seq<Check>)
    requires |xs| == |ys|
    requires forall i :: 0 <= i < |xs| ==> xs[i] == ys[i] || (!Blocks(xs[i]) && !Blocks(ys[i]))
    ensures Failures(xs) == Failures(ys)
  {
    if xs != [] {
      FilterPointwise(xs[..|xs| - 1], ys[..|ys| - 1]);
    }
  }

  /** Candidates that differ in confidence, review or attached decision only. */
  predicate SameTrade(s: Signal, t: Signal) {
    && s.symbol == t.symbol && s.grain.strategy == t.grain.strategy
    && s.entryPrice == t.entryPrice && s.stopLoss == t.stopLoss && s.positionPct == t.positionPct
    && s.quantity == t.quantity && s.riskReward == t.riskReward
  }

  /** Confidence is the only soft rule: no confidence and no review, however it turns out, changes what blocks a
      trade. */
  lemma OpinionsDoNotBlock(s: Signal, t: Signal, w: World, enforce: bool)
    requires SameTrade(s, t) && (BackstopApplies(s, enforce) ==> Assess(s, w) == Assess(t, w))
    ensures Failures(RunRiskChecks(s, w, enforce)) == Failures(RunRiskChecks(t, w, enforce))
  {
    SamePortfolioChecks(s, t, w);
    FilterPointwise(RunRiskChecks(s, w, enforce), RunRiskChecks(t, w, enforce));
    hide PortfolioChecks, Assess, Filter;
  }

  lemma SamePortfolioChecks(s: Signal, t: Signal, w: World)
    requires SameTrade(s, t)
    ensures var xs, ys := PortfolioChecks(s, w), PortfolioChecks(t, w);
      |xs| == |ys| && forall i :: 0 <= i < |xs| ==> xs[i] == ys[i] || (!Blocks(xs[i]) && !Blocks(ys[i]))
  {
    SameProjection(s, t, w.portfolio);
    hide ProjectedPct, DrawdownPct, SectorPct, WorstCorrelation, AverageConfidence, Absolute, InSector, Forced, Filter,
      CorrelationsOf;
  }

  lemma SameProjection(s: Signal, t: Signal, p: Portfolio)
    requires SameTrade(s, t)
    ensures ProjectedPct(s, p) == ProjectedPct(t, p)
  {
  }

  // ---- Repeated eligibility decisions ----

  /** Once a decision is written into a candidate, assessing it again gives the same decision. */
  lemma SameDecisionAgain(s: Signal, w: World)
    requires E.OnePerIdentity(w.files)
    ensures Assess(Recorded(s, Assess(s, w)), w) == Assess(s, w)
  {
    E.ReevaluationIsStable(w.files, QueryOf(s, w), w.paperGate);
    hide E.Evaluate;
  }

  function Reassessed(s: Signal, w: World, times: nat): Signal {
    if times == 0 then s
    else
      var before := Reassessed(s, w, times - 1);
      Recorded(before, Assess(before, w))
  }

  /** For any number of repetitions: the decision, its version and its original confidence stay what they were, so a
      regime multiplier is applied to the original confidence once and never compounds. */
  lemma {:induction false} DecisionNeverDrifts(s: Signal, w: World, times: nat)
    requires E.OnePerIdentity(w.files)
    ensures Assess(Reassessed(s, w, times), w) == Assess(s, w)
    ensures times > 0 ==> Reassessed(s, w, times) == Recorded(s, Assess(s, w))
  {
    hide Assess, Recorded;
    if times > 0 {
      DecisionNeverDrifts(s, w, times - 1);
      SameDecisionAgain(s, w);
      RecordedTwice(s, Assess(s, w));
    }
  }

  lemma RecordedTwice(s: Signal, d: E.Decision)
    ensures Recorded(Recorded(s, d), d) == Recorded(s, d)
  {
  }

  // ---- The final gate ----

  function ModeOf(s: Signal, w: World): string {
    if s.declaredMode.Some? then s.declaredMode.value else w.mode
  }

  function FinalFailures(s: Signal, w: World): seq<Check> {
    Failures(RunRiskChecks(s, w, true) + [Check(ModeOf(s, w) == w.mode, ModeIsolation, true)])
  }

  function PassesFinal(w: World): Signal -> bool {
    (s: Signal) => FinalFailures(s, w) == []
  }

  datatype RiskRejection = RiskRejection(signal: Signal, failures: seq<Check>)

  function RejectedFinal(signals: seq<Signal>, w: World): seq<RiskRejection> {
    if signals == [] then []
    else
      var last := signals[|signals| - 1];
      RejectedFinal(signals[..|signals| - 1], w) +
      if PassesFinal(w)(last) then [] else [RiskRejection(AfterChecks(last, w, true), FinalFailures(last, w))]
  }

  function ApprovedFinal(signals: seq<Signal>, w: World): seq<Signal> {
    if signals == [] then []
    else
      var last := signals[|signals| - 1];
      ApprovedFinal(signals[..|signals| - 1], w) + if PassesFinal(w)(last) then [AfterChecks(last, w, true)] else []
  }

  /** The final gate: every candidate is either approved for execution or rejected with its blocking failures. */
  method RiskComplianceNode(validated: seq<Signal>, w: World)
    returns (approved: seq<Signal>, rejected: seq<RiskRejection>)
    ensures approved == ApprovedFinal(validated, w) && rejected == RejectedFinal(validated, w)
    ensures |approved| + |rejected| == |validated|
  {
    approved, rejected := [], [];
    hide FinalFailures, AfterChecks;
    for i := 0 to |validated|
      invariant approved == ApprovedFinal(validated[..i], w) && rejected == RejectedFinal(validated[..i], w)
      invariant |approved| + |rejected| == i
    {
      var s := validated[i];
      assert validated[..i + 1][..i] == validated[..i];
      var failures := FinalFailures(s, w);
      var checked := AfterChecks(s, w, true);
      if failures != [] {
        rejected := rejected + [RiskRejection(checked, failures)];
      } else {
        approved := approved + [checked];
      }
    }
    assert validated[..|validated|] == validated;
  }

  // ---- What the limits bound ----

  /** The position a candidate would open, at the value the gate projects for it: its quantity at its entry price, or
      one lot worth its percentage of the capital. */
  function Opened(s: Signal, capital: real): Position {
    if s.quantity > 0 then Position(s.symbol, s.quantity as real, s.entryPrice, None)
    else Position(s.symbol, 1.0, CandidateNotional(s, capital), None)
  }

  function Execute(p: Portfolio, s: Signal): Portfolio {
    p.(positions := p.positions + [Opened(s, Capital(p))])
  }

  ghost predicate SymbolsApart(positions: seq<Position>) {
    forall i, j :: 0 <= i < j < |positions| ==> positions[i].symbol != positions[j].symbol
  }

  predicate SectorWithin(positions: seq<Position>, sector: string, w: World) {
    |Filter(positions, InSector(sector, w.sector))| <= w.limits.maxSectorPositions
  }

  predicate ExposureWithin(value: real, capital: real, w: World) {
    capital > 0.0 ==> value / capital * 100.0 <= w.limits.maxExposurePct
  }

  ghost predicate WithinLimits(p: Portfolio, w: World) {
    && SymbolsApart(p.positions)
    && |p.positions| <= w.limits.maxPositions
    && (forall sector :: SectorWithin(p.positions, sector, w))
    && ExposureWithin(Exposure(p.positions), Capital(p), w)
  }

  lemma PassingChecks(s: Signal, w: World)
    requires PassesFinal(w)(s)
    ensures |w.portfolio.positions| < w.limits.maxPositions
    ensures ProjectedPct(s, w.portfolio) <= w.limits.maxExposurePct
    ensures forall q :: q in w.portfolio.positions ==> q.symbol != s.symbol
    ensures |Filter(w.portfolio.positions, InSector(w.sector(s.symbol), w.sector))| < w.limits.maxSectorPositions
    ensures SectorPct(w.portfolio, w.sector(s.symbol), w.sector) <= w.limits.maxSectorPct
  {
    hide PassesFinal, ProjectedPct, SectorPct, Filter, ExposureFits, SectorShareFits;
    FinalGateIff(s, w);
    ExposureOnFields(s, w);
    SectorOnFields(s, w);
    assert Meets(MaxPositions, s, w) && Meets(TotalExposure, s, w) && Meets(DuplicatePosition, s, w);
    assert Meets(CorrelatedPositions, s, w) && Meets(SectorExposure, s, w);
  }

  // ---- The final gate on the fields ----

  /** The distance of the stop is within its share of the price. */
  predicate StopFits(s: Signal, w: World) {
    s.entryPrice > 0.0 ==>
      -(w.limits.maxStopPct * s.entryPrice) <= (s.entryPrice - s.stopLoss) * 100.0 <= w.limits.maxStopPct * s.entryPrice
  }

  /** The portfolio and the candidate together are within their share of the capital. */
  predicate ExposureFits(s: Signal, w: World) {
    var capital := Capital(w.portfolio);
    if capital > 0.0
    then (Exposure(w.portfolio.positions) + CandidateNotional(s, capital)) * 100.0 <= w.limits.maxExposurePct * capital
    else 100.0 <= w.limits.maxExposurePct
  }

  /** What the portfolio holds in the candidate's sector is within its share of the capital. */
  predicate SectorShareFits(s: Signal, w: World) {
    var capital := Capital(w.portfolio);
    if capital > 0.0
    then SectorValue(w.portfolio.positions, w.sector(s.symbol), w.sector) * 100.0 <= w.limits.maxSectorPct * capital
    else 0.0 <= w.limits.maxSectorPct
  }

  /** No known correlation with another open position is beyond the limit, either way. */
  ghost predicate CorrelationsFit(s: Signal, w: World) {
    && 0.0 <= w.limits.maxCorrelation
    && forall q :: q in w.portfolio.positions && q.symbol != s.symbol ==>
         (s.symbol in w.portfolio.correlations && q.symbol in w.portfolio.correlations[s.symbol] ==>
            Within(w.portfolio.correlations[s.symbol][q.symbol], w.limits.maxCorrelation))
  }

  predicate Within(x: real, bound: real) {
    -bound <= x <= bound
  }

  /** What each blocking rule demands, on the fields of the candidate and the world. */
  ghost predicate Meets(rule: Rule, s: Signal, w: World) {
    match rule
    case DailyTradeLimit => w.stats.trades < w.limits.maxDailyTrades
    case DailyLossLimit => w.stats.pnl > -w.limits.maxDailyLoss
    case PositionSize => s.positionPct <= w.limits.maxPositionPct
    case RiskReward => w.limits.minRiskReward <= if s.riskReward.Some? then s.riskReward.value else 0.0
    case StopLossPct => StopFits(s, w)
    case MaxPositions => |w.portfolio.positions| < w.limits.maxPositions
    case TotalExposure => ExposureFits(s, w)
    case TradingHours => w.inHours || (w.limits.forceWindow && (w.limits.forceNeedsMarker ==> w.stats.simulation))
    case Drawdown => DrawdownBelow(w)
    case DuplicatePosition => forall q :: q in w.portfolio.positions ==> q.symbol != s.symbol
    case SectorExposure => SectorShareFits(s, w)
    case CorrelatedPositions =>
      |Filter(w.portfolio.positions, InSector(w.sector(s.symbol), w.sector))| < w.limits.maxSectorPositions
    case PairwiseCorrelation => CorrelationsFit(s, w)
    case StrategyEligibility => s.grain.strategy != "" ==> Assess(s, w).executionAllowed
    case ModeIsolation => s.declaredMode.Some? ==> s.declaredMode.value == w.mode
    case _ => true
  }

  ghost predicate Acceptable(s: Signal, w: World) {
    forall rule :: Meets(rule, s, w)
  }

  /** The blocking failures of a candidate name exactly the rules it does not meet. */
  lemma FailuresNameTheirRules(s: Signal, w: World)
    ensures forall rule :: (exists c :: c in FinalFailures(s, w) && c.rule == rule) <==> !Meets(rule, s, w)
  {
    hide Meets;
    var checks := RunRiskChecks(s, w, true) + [Check(ModeOf(s, w) == w.mode, ModeIsolation, true)];
    FilterMembers(checks, Blocks);
    FinalChecks(s, w);
    hide RunRiskChecks, ModeOf, Filter;
  }

  /** The same of the rules alone, which know no execution mode. */
  lemma RuleFailuresNameTheirRules(s: Signal, w: World)
    ensures forall rule :: (exists c :: c in Failures(RunRiskChecks(s, w, true)) && c.rule == rule) <==>
      !rule.ModeIsolation? && !Meets(rule, s, w)
  {
    hide Meets, PortfolioChecks, Assess, RunRiskChecks, Filter;
    FilterMembers(RunRiskChecks(s, w, true), Blocks);
    PortfolioIsJudged(s, w);
    OtherRules(s, w);
    ChecksMade(s, w);
    forall rule | !Meets(rule, s, w) && !rule.ModeIsolation?
      ensures exists c :: c in Failures(RunRiskChecks(s, w, true)) && c.rule == rule
    {
      if IsPortfolioRule(rule) {
        var c :| c in PortfolioChecks(s, w) && c.blocking && c.rule == rule;
        assert c in Failures(RunRiskChecks(s, w, true));
      } else {
        assert Check(false, StrategyEligibility, true) in Failures(RunRiskChecks(s, w, true));
      }
    }
  }

  /** The rules let a candidate through exactly when it meets all of them but mode isolation. */
  lemma RulesPassIff(s: Signal, w: World)
    ensures Failures(RunRiskChecks(s, w, true)) == [] <==>
      forall rule: Rule :: !rule.ModeIsolation? ==> Meets(rule, s, w)
  {
    RuleFailuresNameTheirRules(s, w);
    hide Meets, Failures, RunRiskChecks;
    var failures := Failures(RunRiskChecks(s, w, true));
    if failures != [] {
      assert failures[0] in failures;
      assert !Meets(failures[0].rule, s, w);
    }
  }

  /** The final gate lets a candidate through exactly when it is acceptable; its confidence has no part in that. */
  lemma FinalGateIff(s: Signal, w: World)
    ensures PassesFinal(w)(s) <==> Acceptable(s, w)
  {
    FailuresNameTheirRules(s, w);
    hide Meets, FinalFailures;
    var failures := FinalFailures(s, w);
    if failures != [] {
      assert failures[0] in failures;
      assert !Meets(failures[0].rule, s, w);
    }
  }

  /** Each blocking check passed exactly when its rule is met, and every rule that is not met has one. */
  ghost predicate Judges(checks: seq<Check>, s: Signal, w: World) {
    && (forall c :: c in checks && c.blocking ==> !c.rule.ModeIsolation? && (c.passed <==> Meets(c.rule, s, w)))
    && (forall rule :: IsPortfolioRule(rule) && !Meets(rule, s, w) ==>
          exists c :: c in checks && c.blocking && c.rule == rule)
  }

  lemma FinalChecks(s: Signal, w: World)
    ensures var checks := RunRiskChecks(s, w, true) + [Check(ModeOf(s, w) == w.mode, ModeIsolation, true)];
      && (forall c :: c in checks && Blocks(c) ==> !Meets(c.rule, s, w))
      && (forall rule :: !Meets(rule, s, w) ==> exists c :: c in checks && Blocks(c) && c.rule == rule)
  {
    hide PortfolioChecks, Assess, RunRiskChecks, ModeOf, Meets;
    PortfolioIsJudged(s, w);
    OtherRules(s, w);
    ChecksMade(s, w);
    var mode := Check(ModeOf(s, w) == w.mode, ModeIsolation, true);
    var checks := RunRiskChecks(s, w, true) + [mode];
    forall rule | !Meets(rule, s, w) ensures exists c :: c in checks && Blocks(c) && c.rule == rule {
      if IsPortfolioRule(rule) {
        var c :| c in PortfolioChecks(s, w) && c.blocking && c.rule == rule;
        assert c in checks;
      } else if rule == ModeIsolation {
        assert mode in checks;
      } else {
        var backstop := Check(Assess(s, w).executionAllowed, StrategyEligibility, true);
        assert backstop in checks;
      }
    }
  }

  lemma ChecksMade(s: Signal, w: World)
    ensures forall c :: c in RunRiskChecks(s, w, true) <==>
      || c in PortfolioChecks(s, w)
      || (s.grain.strategy != "" && c == Check(Assess(s, w).executionAllowed, StrategyEligibility, true))
  {
    hide PortfolioChecks, Assess;
  }

  /** The rules of the candidate and the portfolio that block. */
  predicate IsPortfolioRule(rule: Rule) {
    match rule
    case LowConfidence | StrategyEligibility | ModeIsolation => false
    case MtfConfirmation | EntryQuality | ShadowOnly | KillSwitch | HardBudget | SharedContext => false
    case _ => true
  }

  lemma OtherRules(s: Signal, w: World)
    ensures forall rule :: !Meets(rule, s, w) ==>
      IsPortfolioRule(rule) || rule.StrategyEligibility? || rule.ModeIsolation?
    ensures Meets(StrategyEligibility, s, w) <==> s.grain.strategy != "" ==> Assess(s, w).executionAllowed
    ensures Meets(ModeIsolation, s, w) <==> ModeOf(s, w) == w.mode
  {
    hide Assess, StopFits, ExposureFits, SectorShareFits, CorrelationsFit, DrawdownBelow, Filter;
  }

  lemma PortfolioIsJudged(s: Signal, w: World)
    ensures Judges(PortfolioChecks(s, w), s, w)
  {
    hide Judges;
    JudgedOneByOne(s, w);
    hide PortfolioChecks, Meets;
    EachOnce(PortfolioChecks(s, w), s, w);
  }

  /** The checks are those of the rules, each as its rule is met, together with the soft one. */
  ghost predicate OneByOne(checks: seq<Check>, s: Signal, w: World) {
    && (forall c :: c in checks && c.blocking ==> !c.rule.ModeIsolation? && (c.passed <==> Meets(c.rule, s, w)))
    && (forall rule :: IsPortfolioRule(rule) && (rule == StopLossPct ==> s.entryPrice > 0.0) ==>
          Check(Meets(rule, s, w), rule, true) in checks)
  }

  lemma EachOnce(checks: seq<Check>, s: Signal, w: World)
    requires OneByOne(checks, s, w)
    ensures Judges(checks, s, w)
  {
    assert s.entryPrice <= 0.0 ==> Meets(StopLossPct, s, w);
    hide Meets;
    forall rule | IsPortfolioRule(rule) && !Meets(rule, s, w)
      ensures exists c :: c in checks && c.blocking && c.rule == rule
    {
      assert Check(Meets(rule, s, w), rule, true) in checks;
    }
  }

  /** The checks in their order, each with its rule. */
  lemma ChecksInOrder(s: Signal, w: World, stop: int)
    requires stop == if s.entryPrice > 0.0 then 1 else 0
    ensures var checks := PortfolioChecks(s, w);
      && |checks| == 13 + stop
      && checks[0] == Check(Meets(DailyTradeLimit, s, w), DailyTradeLimit, true)
      && checks[1] == Check(Meets(DailyLossLimit, s, w), DailyLossLimit, true)
      && checks[2] == Check(Meets(PositionSize, s, w), PositionSize, true)
      && checks[3] == Check(Meets(RiskReward, s, w), RiskReward, true)
      && (stop == 1 ==> checks[4] == Check(Meets(StopLossPct, s, w), StopLossPct, true))
      && checks[4 + stop] == Check(Meets(MaxPositions, s, w), MaxPositions, true)
      && checks[5 + stop] == Check(Meets(TotalExposure, s, w), TotalExposure, true)
      && checks[6 + stop] == Check(Meets(TradingHours, s, w), TradingHours, true)
      && checks[7 + stop] == Check(Meets(Drawdown, s, w), Drawdown, true)
      && checks[8 + stop] == Check(Meets(DuplicatePosition, s, w), DuplicatePosition, true)
      && !checks[9 + stop].blocking
      && checks[10 + stop] == Check(Meets(SectorExposure, s, w), SectorExposure, true)
      && checks[11 + stop] == Check(Meets(CorrelatedPositions, s, w), CorrelatedPositions, true)
      && checks[12 + stop] == Check(Meets(PairwiseCorrelation, s, w), PairwiseCorrelation, true)
  {
    hide Meets;
    RulesAsChecked(s, w);
    SharesAsChecked(s, w);
    hide DrawdownPct, ProjectedPct, SectorPct, WorstCorrelation, Absolute, Filter, InSector, CorrelationsOf,
      AverageConfidence, Forced;
  }

  lemma JudgedOneByOne(s: Signal, w: World)
    ensures OneByOne(PortfolioChecks(s, w), s, w)
  {
    EveryRuleIsThere(s, w);
    EveryCheckIsRight(s, w);
    hide PortfolioChecks, Meets, IsPortfolioRule;
  }

  lemma EveryCheckIsRight(s: Signal, w: World)
    ensures forall c :: c in PortfolioChecks(s, w) && c.blocking ==>
      !c.rule.ModeIsolation? && (c.passed <==> Meets(c.rule, s, w))
  {
    hide PortfolioChecks, Meets;
    var checks, stop := PortfolioChecks(s, w), if s.entryPrice > 0.0 then 1 else 0;
    ChecksInOrder(s, w, stop);
    forall k | 0 <= k < |checks| && checks[k].blocking
      ensures !checks[k].rule.ModeIsolation? && (checks[k].passed <==> Meets(checks[k].rule, s, w))
    {
      if k < 4 {
        assert k == 0 || k == 1 || k == 2 || k == 3;
      } else if stop == 1 && k == 4 {
      } else if k < 8 + stop {
        assert k == 4 + stop || k == 5 + stop || k == 6 + stop || k == 7 + stop;
      } else {
        assert k == 8 + stop || k == 9 + stop || k == 10 + stop || k == 11 + stop || k == 12 + stop;
      }
    }
  }

  lemma EveryRuleIsThere(s: Signal, w: World)
    ensures forall rule :: IsPortfolioRule(rule) && (rule == StopLossPct ==> s.entryPrice > 0.0) ==>
      Check(Meets(rule, s, w), rule, true) in PortfolioChecks(s, w)
  {
    hide PortfolioChecks, Meets;
    var checks, stop := PortfolioChecks(s, w), if s.entryPrice > 0.0 then 1 else 0;
    ChecksInOrder(s, w, stop);
    forall rule | IsPortfolioRule(rule) && (rule == StopLossPct ==> s.entryPrice > 0.0)
      ensures Check(Meets(rule, s, w), rule, true) in checks
    {
      match rule
      case DailyTradeLimit => assert checks[0] in checks;
      case DailyLossLimit => assert checks[1] in checks;
      case PositionSize => assert checks[2] in checks;
      case RiskReward => assert checks[3] in checks;
      case StopLossPct => assert checks[4] in checks;
      case MaxPositions => assert checks[4 + stop] in checks;
      case TotalExposure => assert checks[5 + stop] in checks;
      case TradingHours => assert checks[6 + stop] in checks;
      case Drawdown => assert checks[7 + stop] in checks;
      case DuplicatePosition => assert checks[8 + stop] in checks;
      case SectorExposure => assert checks[10 + stop] in checks;
      case CorrelatedPositions => assert checks[11 + stop] in checks;
      case PairwiseCorrelation => assert checks[12 + stop] in checks;
    }
  }

  lemma RulesAsChecked(s: Signal, w: World)
    ensures var l, p := w.limits, w.portfolio;
      && (Meets(DailyTradeLimit, s, w) <==> w.stats.trades < l.maxDailyTrades)
      && (Meets(DailyLossLimit, s, w) <==> w.stats.pnl > -l.maxDailyLoss)
      && (Meets(PositionSize, s, w) <==> s.positionPct <= l.maxPositionPct)
      && (Meets(RiskReward, s, w) <==> (if s.riskReward.Some? then s.riskReward.value else 0.0) >= l.minRiskReward)
      && (Meets(MaxPositions, s, w) <==> |p.positions| < l.maxPositions)
      && (Meets(TradingHours, s, w) <==> Forced(w) || w.inHours)
      && (Meets(DuplicatePosition, s, w) <==> !(exists q :: q in p.positions && q.symbol == s.symbol))
      && (Meets(CorrelatedPositions, s, w) <==>
            |Filter(p.positions, InSector(w.sector(s.symbol), w.sector))| < l.maxSectorPositions)
  {
    hide DrawdownBelow, StopFits, ExposureFits, SectorShareFits, CorrelationsFit, Assess, Filter, InSector;
  }

  lemma SharesAsChecked(s: Signal, w: World)
    ensures var l, p := w.limits, w.portfolio;
      && (s.entryPrice > 0.0 ==> (Meets(StopLossPct, s, w) <==>
            Absolute(s.entryPrice - s.stopLoss) / s.entryPrice * 100.0 <= l.maxStopPct))
      && (Meets(TotalExposure, s, w) <==> ProjectedPct(s, p) <= l.maxExposurePct)
      && (Meets(Drawdown, s, w) <==> DrawdownPct(w) < l.maxDrawdownPct)
      && (Meets(SectorExposure, s, w) <==> SectorPct(p, w.sector(s.symbol), w.sector) <= l.maxSectorPct)
      && (Meets(PairwiseCorrelation, s, w) <==>
            WorstCorrelation(p.positions, s.symbol, CorrelationsOf(p, s.symbol)) <= l.maxCorrelation)
  {
    hide DrawdownPct, DrawdownBelow, ProjectedPct, SectorPct, WorstCorrelation, StopFits, ExposureFits, SectorShareFits,
      CorrelationsFit, Absolute, Assess, Filter, InSector, CorrelationsOf;
    DrawdownOnFields(w);
    StopOnFields(s, w);
    ExposureOnFields(s, w);
    SectorOnFields(s, w);
    CorrelationsOnFields(s, w);
  }

  lemma ShareOf(x: real, whole: real, limit: real)
    requires whole > 0.0
    ensures x / whole * 100.0 <= limit <==> x * 100.0 <= limit * whole
  {
    DivTimes(x, whole);
    ScaleOrder(x / whole * 100.0, limit, whole);
    assert x / whole * 100.0 * whole == x * 100.0;
  }

  lemma StopOnFields(s: Signal, w: World)
    ensures (s.entryPrice > 0.0 ==>
             Absolute(s.entryPrice - s.stopLoss) / s.entryPrice * 100.0 <= w.limits.maxStopPct) <==> StopFits(s, w)
  {
    if s.entryPrice > 0.0 {
      ShareOf(Absolute(s.entryPrice - s.stopLoss), s.entryPrice, w.limits.maxStopPct);
    }
  }

  lemma ExposureOnFields(s: Signal, w: World)
    ensures ProjectedPct(s, w.portfolio) <= w.limits.maxExposurePct <==> ExposureFits(s, w)
  {
    hide Exposure, CandidateNotional;
    var capital := Capital(w.portfolio);
    if capital > 0.0 {
      ShareOf(Exposure(w.portfolio.positions) + CandidateNotional(s, capital), capital, w.limits.maxExposurePct);
    }
  }

  lemma SectorOnFields(s: Signal, w: World)
    ensures SectorPct(w.portfolio, w.sector(s.symbol), w.sector) <= w.limits.maxSectorPct <==> SectorShareFits(s, w)
  {
    hide SectorValue;
    var capital := Capital(w.portfolio);
    if capital > 0.0 {
      ShareOf(SectorValue(w.portfolio.positions, w.sector(s.symbol), w.sector), capital, w.limits.maxSectorPct);
    }
  }

  lemma CorrelationsOnFields(s: Signal, w: World)
    ensures WorstCorrelation(w.portfolio.positions, s.symbol, CorrelationsOf(w.portfolio, s.symbol))
              <= w.limits.maxCorrelation <==>
      CorrelationsFit(s, w)
  {
    WorstIsBound(w.portfolio.positions, s.symbol, CorrelationsOf(w.portfolio, s.symbol), w.limits.maxCorrelation);
    hide WorstCorrelation;
  }

  lemma {:induction false} WorstIsBound(positions: seq<Position>, symbol: string, known: map<string, real>, bound: real)
    ensures WorstCorrelation(positions, symbol, known) <= bound <==>
      && 0.0 <= bound
      && forall q :: q in positions && q.symbol != symbol && q.symbol in known ==> Within(known[q.symbol], bound)
  {
    if positions != [] {
      var front, last := positions[..|positions| - 1], positions[|positions| - 1];
      assert positions == front + [last];
      WorstIsBound(front, symbol, known, bound);
    }
  }

  lemma OneMorePosition(positions: seq<Position>, q: Position)
    ensures Exposure(positions + [q]) == Exposure(positions) + Value(q)
    ensures forall p: Position -> bool :: Filter(positions + [q], p) == Filter(positions, p) + if p(q) then [q] else []
  {
    assert (positions + [q])[..|positions|] == positions;
    hide Value;
  }

  lemma OpenedAtItsNotional(s: Signal, capital: real)
    ensures Value(Opened(s, capital)) == CandidateNotional(s, capital) && Opened(s, capital).symbol == s.symbol
  {
  }

  /** A portfolio that grows one approved trade at a time stays within its limits: distinct symbols, the number of
      positions, the positions of every sector and the exposure. */
  lemma ApprovalKeepsLimits(s: Signal, w: World)
    requires WithinLimits(w.portfolio, w) && PassesFinal(w)(s)
    ensures WithinLimits(Execute(w.portfolio, s), w)
  {
    hide PassesFinal, Exposure, Filter, Opened, CandidateNotional, Value;
    var p, now := w.portfolio, Execute(w.portfolio, s);
    var q := Opened(s, Capital(p));
    PassingChecks(s, w);
    OpenedAtItsNotional(s, Capital(p));
    OneMorePosition(p.positions, q);
    forall sector ensures SectorWithin(now.positions, sector, w) {
      assert SectorWithin(p.positions, sector, w);
    }
  }

  /** The share of the capital a trade takes up. */
  function SharePct(s: Signal, capital: real): real
    requires capital != 0.0
  {
    Value(Opened(s, capital)) / capital * 100.0
  }

  /** The size rule reads the stated percentage. An approved trade that is sized by it keeps any position-size limit
      that is not negative; one that carries a quantity keeps it exactly when its notional fits. */
  lemma PositionSizeAfterApproval(s: Signal, w: World)
    requires PassesFinal(w)(s) && Capital(w.portfolio) > 0.0
    ensures SharePct(s, Capital(w.portfolio)) <= w.limits.maxPositionPct <==>
      if s.quantity > 0 then s.entryPrice * s.quantity as real * 100.0 <= w.limits.maxPositionPct * Capital(w.portfolio)
      else w.limits.maxPositionPct >= 0.0
  {
    hide PassesFinal, Opened, Value;
    var capital := Capital(w.portfolio);
    FinalGateIff(s, w);
    assert Meets(PositionSize, s, w);
    OpenedAtItsNotional(s, capital);
    ShareWithin(CandidateNotional(s, capital), capital, w.limits.maxPositionPct);
    if s.quantity <= 0 {
      ScaleOrder(Max(0.0, s.positionPct), w.limits.maxPositionPct, capital);
    }
  }

  // ---- Batches ----

  function ExecuteAll(p: Portfolio, signals: seq<Signal>): (now: Portfolio)
    ensures now.capital == p.capital && |now.positions| == |p.positions| + |signals|
  {
    if signals == [] then p else Execute(ExecuteAll(p, signals[..|signals| - 1]), signals[|signals| - 1])
  }

  lemma OneMoreExecuted(p: Portfolio, signals: seq<Signal>, s: Signal)
    ensures ExecuteAll(p, signals + [s]) == Execute(ExecuteAll(p, signals), s)
    ensures ExecuteAll(p, signals + [s]).positions == ExecuteAll(p, signals).positions + [Opened(s, Capital(p))]
  {
    assert (signals + [s])[..|signals|] == signals;
    hide Opened;
  }

  /** The candidates of the batch that pass the final gate, each on its own. */
  function Passing(signals: seq<Signal>, w: World): seq<Signal> {
    Filter(signals, PassesFinal(w))
  }

  lemma SameOpening(s: Signal, w: World, p: Portfolio)
    ensures Execute(p, AfterChecks(s, w, true)) == Execute(p, s)
    ensures Opened(AfterChecks(s, w, true), Capital(p)) == Opened(s, Capital(p))
  {
    hide Assess;
  }

  /** What a batch approves are its passing candidates, so executing the one is executing the other. */
  lemma {:induction false} ApprovedAreThePassing(signals: seq<Signal>, w: World, p: Portfolio)
    ensures |ApprovedFinal(signals, w)| == |Passing(signals, w)|
    ensures ExecuteAll(p, ApprovedFinal(signals, w)) == ExecuteAll(p, Passing(signals, w))
  {
    if signals == [] {
      assert ExecuteAll(p, ApprovedFinal(signals, w)) == p;
    } else {
      var front, s := signals[..|signals| - 1], signals[|signals| - 1];
      assert signals == front + [s];
      ApprovedAreThePassing(front, w, p);
      ApprovedOneMore(front, s, w);
      if PassesFinal(w)(s) {
        OneMoreExecuted(p, ApprovedFinal(front, w), AfterChecks(s, w, true));
        OneMoreExecuted(p, Passing(front, w), s);
        SameOpening(s, w, ExecuteAll(p, Passing(front, w)));
      }
      hide *;
    }
  }

  lemma ApprovedOneMore(signals: seq<Signal>, s: Signal, w: World)
    ensures PassesFinal(w)(s) ==>
      && ApprovedFinal(signals + [s], w) == ApprovedFinal(signals, w) + [AfterChecks(s, w, true)]
      && Passing(signals + [s], w) == Passing(signals, w) + [s]
    ensures !PassesFinal(w)(s) ==>
      ApprovedFinal(signals + [s], w) == ApprovedFinal(signals, w) && Passing(signals + [s], w) == Passing(signals, w)
  {
    assert (signals + [s])[..|signals|] == signals;
    hide PassesFinal, AfterChecks;
  }

  function TradesIn(sector: string, w: World): Signal -> bool {
    (s: Signal) => w.sector(s.symbol) == sector
  }

  function Notionals(signals: seq<Signal>, capital: real): real {
    if signals == [] then 0.0
    else Notionals(signals[..|signals| - 1], capital) + CandidateNotional(signals[|signals| - 1], capital)
  }

  lemma {:induction false} ExecutedTotals(p: Portfolio, signals: seq<Signal>, sector: string, w: World)
    ensures Exposure(ExecuteAll(p, signals).positions) == Exposure(p.positions) + Notionals(signals, Capital(p))
    ensures |Filter(ExecuteAll(p, signals).positions, InSector(sector, w.sector))| ==
      |Filter(p.positions, InSector(sector, w.sector))| + |Filter(signals, TradesIn(sector, w))|
  {
    if signals != [] {
      var front, s := signals[..|signals| - 1], signals[|signals| - 1];
      assert signals == front + [s];
      ExecutedTotals(p, front, sector, w);
      OneMoreExecuted(p, front, s);
      OpenedAtItsNotional(s, Capital(p));
      OneMorePosition(ExecuteAll(p, front).positions, Opened(s, Capital(p)));
      FilterOneMore(front, s, TradesIn(sector, w));
      assert Notionals(signals, Capital(p)) == Notionals(front, Capital(p)) + CandidateNotional(s, Capital(p));
      hide ExecuteAll, Exposure, Filter, Opened, Value, CandidateNotional, Notionals;
    }
  }

  ghost predicate TradedApart(signals: seq<Signal>) {
    forall i, j :: 0 <= i < j < |signals| ==> signals[i].symbol != signals[j].symbol
  }

  /** Executing appends one position in the symbol of every signal, in order. */
  ghost predicate Appended(after: seq<Position>, before: seq<Position>, signals: seq<Signal>) {
    && |after| == |before| + |signals| && before <= after
    && forall i :: 0 <= i < |signals| ==> after[|before| + i].symbol == signals[i].symbol
  }

  lemma {:induction false} ExecutionAppends(p: Portfolio, signals: seq<Signal>)
    ensures Appended(ExecuteAll(p, signals).positions, p.positions, signals)
  {
    if signals != [] {
      var front, s := signals[..|signals| - 1], signals[|signals| - 1];
      assert signals == front + [s];
      ExecutionAppends(p, front);
      OneMoreExecuted(p, front, s);
      OpenedAtItsNotional(s, Capital(p));
      hide ExecuteAll, Opened, Value, CandidateNotional;
    }
  }

  lemma ApartAfterExecution(p: Portfolio, signals: seq<Signal>)
    requires forall s :: s in signals ==> forall q :: q in p.positions ==> q.symbol != s.symbol
    ensures SymbolsApart(ExecuteAll(p, signals).positions) <==> SymbolsApart(p.positions) && TradedApart(signals)
  {
    ExecutionAppends(p, signals);
    hide *;
    ApartWhenAppended(ExecuteAll(p, signals).positions, p.positions, signals);
  }

  lemma ApartWhenAppended(after: seq<Position>, before: seq<Position>, signals: seq<Signal>)
    requires Appended(after, before, signals)
    requires forall s :: s in signals ==> forall q :: q in before ==> q.symbol != s.symbol
    ensures SymbolsApart(after) <==> SymbolsApart(before) && TradedApart(signals)
  {
    var n := |before|;
    if SymbolsApart(after) {
      forall i, j | 0 <= i < j < |signals| ensures signals[i].symbol != signals[j].symbol {
        assert after[n + i].symbol != after[n + j].symbol;
      }
    }
    if SymbolsApart(before) && TradedApart(signals) {
      forall i, j | 0 <= i < j < |after| ensures after[i].symbol != after[j].symbol {
        if n <= i {
          assert after[n + (i - n)].symbol == signals[i - n].symbol
            && after[n + (j - n)].symbol == signals[j - n].symbol;
        } else if n <= j {
          assert after[i] == before[i] && after[n + (j - n)].symbol == signals[j - n].symbol;
        }
      }
    }
  }

  lemma OneMoreTradedApart(signals: seq<Signal>, s: Signal)
    ensures TradedApart(signals + [s]) <==> TradedApart(signals) && forall x :: x in signals ==> x.symbol != s.symbol
  {
    var now := signals + [s];
    assert forall i :: 0 <= i < |signals| ==> now[i] == signals[i];
    if TradedApart(now) {
      forall x | x in signals ensures x.symbol != s.symbol {
        var i :| 0 <= i < |signals| && signals[i] == x;
        assert now[i].symbol != now[|signals|].symbol;
      }
    }
  }

  lemma PassingAreNew(signals: seq<Signal>, w: World)
    ensures forall s :: s in Passing(signals, w) ==> s in signals && PassesFinal(w)(s)
    ensures forall s :: s in Passing(signals, w) ==> forall q :: q in w.portfolio.positions ==> q.symbol != s.symbol
  {
    FilterMembers(signals, PassesFinal(w));
    forall s | s in Passing(signals, w) ensures forall q :: q in w.portfolio.positions ==> q.symbol != s.symbol {
      PassingChecks(s, w);
    }
    hide PassesFinal;
  }

  /** The batch as a caller can check it beforehand: no two passing candidates in one symbol, and the passing candidates
      together within what the portfolio leaves of every limit. */
  ghost predicate BatchFits(signals: seq<Signal>, w: World) {
    var p, passing := w.portfolio, Passing(signals, w);
    && PassingApart(signals, w)
    && |p.positions| + |passing| <= w.limits.maxPositions
    && (forall sector :: SectorFits(passing, sector, w))
    && ExposureWithin(Exposure(p.positions) + Notionals(passing, Capital(p)), Capital(p), w)
  }

  ghost predicate PassingApart(signals: seq<Signal>, w: World) {
    forall i, j :: 0 <= i < j < |signals| && PassesFinal(w)(signals[i]) && PassesFinal(w)(signals[j]) ==>
      signals[i].symbol != signals[j].symbol
  }

  predicate SectorFits(passing: seq<Signal>, sector: string, w: World) {
    |Filter(w.portfolio.positions, InSector(sector, w.sector))| + |Filter(passing, TradesIn(sector, w))|
      <= w.limits.maxSectorPositions
  }

  lemma {:induction false} PassingApartMeans(signals: seq<Signal>, w: World)
    ensures PassingApart(signals, w) <==> TradedApart(Passing(signals, w))
  {
    hide PassesFinal;
    if signals != [] {
      var front, s := signals[..|signals| - 1], signals[|signals| - 1];
      assert signals == front + [s];
      PassingApartMeans(front, w);
      FilterMembers(front, PassesFinal(w));
      ApprovedOneMore(front, s, w);
      OneMorePassingApart(front, s, w);
      OneMoreTradedApart(Passing(front, w), s);
      hide PassingApart, TradedApart;
    }
  }

  lemma OneMorePassingApart(signals: seq<Signal>, s: Signal, w: World)
    ensures PassingApart(signals + [s], w) <==>
      && PassingApart(signals, w)
      && (PassesFinal(w)(s) ==> forall x :: x in signals && PassesFinal(w)(x) ==> x.symbol != s.symbol)
  {
    hide PassesFinal;
    var now := signals + [s];
    assert forall i :: 0 <= i < |signals| ==> now[i] == signals[i];
    if PassingApart(now, w) && PassesFinal(w)(s) {
      forall x | x in signals && PassesFinal(w)(x) ensures x.symbol != s.symbol {
        var i :| 0 <= i < |signals| && signals[i] == x;
        assert now[i].symbol != now[|signals|].symbol;
      }
    }
  }

  /** One batch is checked against the portfolio as it stood before the batch, so its trades do not see each other.
      Executing everything it approves keeps one position per symbol exactly when no two candidates that pass, each
      on its own, are in one symbol. */
  lemma BatchKeepsSymbolsApart(signals: seq<Signal>, w: World)
    requires SymbolsApart(w.portfolio.positions)
    ensures SymbolsApart(ExecuteAll(w.portfolio, ApprovedFinal(signals, w)).positions) <==> PassingApart(signals, w)
  {
    ApprovedAreThePassing(signals, w, w.portfolio);
    PassingAreNew(signals, w);
    ApartAfterExecution(w.portfolio, Passing(signals, w));
    PassingApartMeans(signals, w);
    hide *;
  }

  /** And it keeps all the limits exactly when the batch fits: symbols, number of positions, positions per sector and
      exposure. */
  lemma BatchKeepsLimits(signals: seq<Signal>, w: World)
    requires SymbolsApart(w.portfolio.positions)
    ensures WithinLimits(ExecuteAll(w.portfolio, ApprovedFinal(signals, w)), w) <==> BatchFits(signals, w)
  {
    hide *;
    var p, passing := w.portfolio, Passing(signals, w);
    BatchKeepsSymbolsApart(signals, w);
    ApprovedAreThePassing(signals, w, p);
    forall sector
      ensures SectorWithin(ExecuteAll(p, passing).positions, sector, w) <==> SectorFits(passing, sector, w)
    {
      SectorFitsExecuted(p, passing, sector, w);
    }
    ExecutedTotals(p, passing, "", w);
    LimitsMeans(ExecuteAll(p, passing), w);
    FitsMeans(signals, w);
    CapitalStays(p, passing);
  }

  lemma SectorFitsExecuted(p: Portfolio, passing: seq<Signal>, sector: string, w: World)
    requires p == w.portfolio
    ensures SectorWithin(ExecuteAll(p, passing).positions, sector, w) <==> SectorFits(passing, sector, w)
  {
    ExecutedTotals(p, passing, sector, w);
    hide ExecuteAll, Filter, Exposure, Notionals;
  }

  lemma LimitsMeans(p: Portfolio, w: World)
    ensures WithinLimits(p, w) <==>
      && SymbolsApart(p.positions) && |p.positions| <= w.limits.maxPositions
      && (forall sector :: SectorWithin(p.positions, sector, w)) && ExposureWithin(Exposure(p.positions), Capital(p), w)
  {
  }

  lemma FitsMeans(signals: seq<Signal>, w: World)
    ensures BatchFits(signals, w) <==>
      && PassingApart(signals, w) && |w.portfolio.positions| + |Passing(signals, w)| <= w.limits.maxPositions
      && (forall sector :: SectorFits(Passing(signals, w), sector, w))
      && ExposureWithin(Exposure(w.portfolio.positions) + Notionals(Passing(signals, w), Capital(w.portfolio)),
                        Capital(w.portfolio), w)
  {
    hide Passing, PassingApart, SectorFits, ExposureWithin, Exposure, Notionals;
  }

  lemma CapitalStays(p: Portfolio, signals: seq<Signal>)
    ensures Capital(ExecuteAll(p, signals)) == Capital(p)
  {
  }

  /** A passing candidate proposed twice, under two identifiers, is approved twice. */
  lemma TwinsAreBothApproved(s: Signal, otherId: string, w: World)
    requires SymbolsApart(w.portfolio.positions) && PassesFinal(w)(s)
    ensures |ApprovedFinal([s, s.(id := otherId)], w)| == 2
    ensures !SymbolsApart(ExecuteAll(w.portfolio, ApprovedFinal([s, s.(id := otherId)], w)).positions)
  {
    hide PassesFinal;
    var t := s.(id := otherId);
    TwinPasses(s, otherId, w);
    assert [s, t] == [s] + [t] && [s] == [] + [s];
    ApprovedOneMore([s], t, w);
    ApprovedOneMore([], s, w);
    BatchKeepsSymbolsApart([s, t], w);
    assert [s, t][0].symbol == [s, t][1].symbol;
    hide ApprovedFinal, ExecuteAll, SymbolsApart;
  }

  lemma TwinPasses(s: Signal, otherId: string, w: World)
    requires PassesFinal(w)(s)
    ensures PassesFinal(w)(s.(id := otherId))
  {
    var t := s.(id := otherId);
    OpinionsDoNotBlock(s, t, w, true);
    FilterConcat(RunRiskChecks(s, w, true), [Check(ModeOf(s, w) == w.mode, ModeIsolation, true)], Blocks);
    FilterConcat(RunRiskChecks(t, w, true), [Check(ModeOf(t, w) == w.mode, ModeIsolation, true)], Blocks);
    hide RunRiskChecks, Assess;
  }

  lemma {:induction false} ApprovedIndividually(signals: seq<Signal>, w: World)
    ensures forall t :: t in ApprovedFinal(signals, w) ==>
      exists s :: s in signals && PassesFinal(w)(s) && t == AfterChecks(s, w, true)
  {
    if signals != [] {
      ApprovedIndividually(signals[..|signals| - 1], w);
      hide PassesFinal, AfterChecks;
      assert signals == signals[..|signals| - 1] + [signals[|signals| - 1]];
    }
  }

  // ---- The sector limit ----

  lemma SectorAddsUp(s: Signal, p: Portfolio, sectorOf: string -> string)
    ensures var sector := sectorOf(s.symbol);
      SectorValue(Execute(p, s).positions, sector, sectorOf) ==
        SectorValue(p.positions, sector, sectorOf) + CandidateNotional(s, Capital(p))
  {
    var q := Opened(s, Capital(p));
    assert (p.positions + [q])[..|p.positions|] == p.positions;
    OpenedAtItsNotional(s, Capital(p));
    hide CandidateNotional;
  }

  predicate NoShortsOrNegativePrices(positions: seq<Position>) {
    forall q :: q in positions ==>
      q.quantity >= 0.0 && q.entryPrice >= 0.0 && (q.currentPrice.Some? ==> q.currentPrice.value >= 0.0)
  }

  lemma PartOfValue(p: Position, sector: string, sectorOf: string -> string)
    requires NoShortsOrNegativePrices([p])
    ensures 0.0 <= SectorPart(p, sector, sectorOf) <= Value(p)
  {
    assert p in [p];
    NonNegativeProduct(p.quantity, p.entryPrice);
    if p.currentPrice.Some? {
      NonNegativeProduct(p.quantity, p.currentPrice.value);
    }
  }

  lemma {:induction false} SectorIsPartOfExposure(positions: seq<Position>, sector: string, sectorOf: string -> string)
    requires NoShortsOrNegativePrices(positions)
    ensures 0.0 <= SectorValue(positions, sector, sectorOf) <= Exposure(positions)
  {
    if positions != [] {
      var front, last := positions[..|positions| - 1], positions[|positions| - 1];
      assert positions == front + [last];
      assert NoShortsOrNegativePrices(front) && NoShortsOrNegativePrices([last]);
      hide SectorPart, Value, NoShortsOrNegativePrices;
      SectorIsPartOfExposure(front, sector, sectorOf);
      PartOfValue(last, sector, sectorOf);
    }
  }

  lemma NonNegativeProduct(x: real, y: real)
    requires x >= 0.0 && y >= 0.0
    ensures x * y >= 0.0
  {
  }

  lemma ShareOrder(x: real, y: real, capital: real)
    requires capital > 0.0
    ensures x / capital * 100.0 <= y / capital * 100.0 <==> x <= y
  {
    QuotientOrder(x, capital, y, capital);
    ScaleOrder(x, y, capital);
    ScaleOrder(x / capital, y / capital, 100.0);
  }

  lemma ShareWithin(x: real, capital: real, limit: real)
    requires capital > 0.0
    ensures x / capital * 100.0 <= limit <==> x * 100.0 <= limit * capital
  {
    DivTimes(x, capital);
    ScaleOrder(x / capital * 100.0, limit, capital);
    assert x / capital * 100.0 * capital == x * 100.0;
  }

  lemma SectorRoom(s: Signal, p: Portfolio, w: World)
    requires Capital(p) > 0.0
    ensures SectorPct(Execute(p, s), w.sector(s.symbol), w.sector) <= w.limits.maxSectorPct <==>
      (SectorValue(p.positions, w.sector(s.symbol), w.sector) + CandidateNotional(s, Capital(p))) * 100.0
        <= w.limits.maxSectorPct * Capital(p)
  {
    SectorAddsUp(s, p, w.sector);
    ShareWithin(SectorValue(Execute(p, s).positions, w.sector(s.symbol), w.sector), Capital(p), w.limits.maxSectorPct);
    hide SectorValue, CandidateNotional, Opened;
  }

  lemma SectorUnderExposure(s: Signal, w: World)
    requires PassesFinal(w)(s) && Capital(w.portfolio) > 0.0
    requires NoShortsOrNegativePrices(w.portfolio.positions) && s.entryPrice >= 0.0
    ensures SectorPct(Execute(w.portfolio, s), w.sector(s.symbol), w.sector) <= w.limits.maxExposurePct
  {
    hide PassesFinal, SectorValue, Exposure, CandidateNotional, Opened, Value, Filter, NoShortsOrNegativePrices;
    var sector, p, now := w.sector(s.symbol), w.portfolio, Execute(w.portfolio, s);
    PassingChecks(s, w);
    OpenedIsLong(s, p);
    SectorIsPartOfExposure(now.positions, sector, w.sector);
    OpenedAtItsNotional(s, Capital(p));
    OneMorePosition(p.positions, Opened(s, Capital(p)));
    ShareOrder(SectorValue(now.positions, sector, w.sector), Exposure(now.positions), Capital(p));
  }

  /** The sector rule reads the portfolio before the trade. An approved trade leaves its sector within the sector limit
      exactly when the sector's value and the trade's together are within that share of the capital; when they are not,
      the sector still holds no more than the limit on total exposure, prices being non-negative. */
  lemma SectorAfterApproval(s: Signal, w: World)
    requires PassesFinal(w)(s) && Capital(w.portfolio) > 0.0
    ensures SectorPct(w.portfolio, w.sector(s.symbol), w.sector) <= w.limits.maxSectorPct
    ensures SectorPct(Execute(w.portfolio, s), w.sector(s.symbol), w.sector) <= w.limits.maxSectorPct <==>
      (SectorValue(w.portfolio.positions, w.sector(s.symbol), w.sector)
       + CandidateNotional(s, Capital(w.portfolio))) * 100.0
        <= w.limits.maxSectorPct * Capital(w.portfolio)
    ensures NoShortsOrNegativePrices(w.portfolio.positions) && s.entryPrice >= 0.0 ==>
      SectorPct(Execute(w.portfolio, s), w.sector(s.symbol), w.sector) <= w.limits.maxExposurePct
  {
    hide *;
    PassingChecks(s, w);
    SectorRoom(s, w.portfolio, w);
    if NoShortsOrNegativePrices(w.portfolio.positions) && s.entryPrice >= 0.0 {
      SectorUnderExposure(s, w);
    }
  }

  lemma OpenedIsLong(s: Signal, p: Portfolio)
    requires NoShortsOrNegativePrices(p.positions) && s.entryPrice >= 0.0 && Capital(p) > 0.0
    ensures NoShortsOrNegativePrices(Execute(p, s).positions)
  {
    if s.quantity <= 0 {
      NonNegativeProduct(Capital(p), Max(0.0, s.positionPct));
    }
  }
}
