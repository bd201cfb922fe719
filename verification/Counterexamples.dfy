/** For each property that holds only under a condition, an input that fails the condition and the property. */
module Counterexamples {
  import opened Common
  import opened VerdictCache
  import opened RiskCompliance
  import E = Eligibility
  import B = Engine
  import G = PreLlmGate
  import C = TradingCycle
  import M = Migration
  import R = EligibilityRuns
  import S = StrategyRegistry
  import SV = SignalValidation
  import RG = ReviewGuarantees

  // ---- The champion after a DISABLED record ----

  function Version(name: string, status: E.Status, validatedAt: int): (r: E.Record)
    requires name != ""
    ensures r.identity == E.Identity("NSE", "trend", "5m", name) && r.status == status && r.validatedAt == validatedAt
    ensures r.migration.None?
  {
    E.RecordData(E.Identity("NSE", "trend", "5m", name), status, validatedAt, 0.0, 0.0, {}, {}, map[], None, false,
                 None)
  }

  lemma TwoKept(x: E.Record, y: E.Record, p: E.Record -> bool)
    ensures Filter([x, y], p) == (if p(x) then [x] else []) + (if p(y) then [y] else [])
  {
    FilterConcat([x], [y], p);
    assert [x, y] == [x] + [y] && [x][..0] == [] && [y][..0] == [];
  }

  lemma NotAmongTwo(x: E.Record, y: E.Record, id: E.Identity)
    requires x.identity != id && y.identity != id
    ensures E.IndexOf([x, y], id).None? && E.Get([x, y], id).None?
  {
    assert [x, y][0] == x && [x, y][1] == y;
    hide E.IndexOf, E.Get;
  }

  lemma NewestOfTwo(x: E.Record, y: E.Record)
    ensures E.Newest([x, y]) == Some(if y.validatedAt > x.validatedAt then y else x)
    ensures E.Newest([x]) == Some(x)
  {
    assert [x, y][..1] == [x] && [x][..0] == [];
  }

  /** The listing of a strategy approved at 1 and disabled at 2. */
  lemma DisabledListing(grain: E.Identity)
    requires grain == E.Identity("NSE", "trend", "5m", "")
    ensures var approved, disabled := Version("1", E.LiveApproved, 1), Version("2", E.Disabled, 2);
      && E.Latest([approved, disabled], grain) == Some(disabled)
      && E.SelectFor([approved, disabled], grain, E.Live) == Some(disabled)
      && E.Newest(Filter(Filter([approved, disabled], E.SameGrain(grain)), E.ApprovedFor(E.Live))) == Some(approved)
      && E.IndexOf([approved, disabled], Version("3", E.Shadow, 3).identity).None?
  {
    hide E.Newest, Filter, Version, E.IndexOf;
    var approved, disabled := Version("1", E.LiveApproved, 1), Version("2", E.Disabled, 2);
    TwoKept(approved, disabled, E.SameGrain(grain));
    TwoKept(approved, disabled, E.ApprovedFor(E.Live));
    assert Filter([approved, disabled], E.SameGrain(grain)) == [approved, disabled];
    assert Filter([approved, disabled], E.ApprovedFor(E.Live)) == [approved];
    NewestOfTwo(approved, disabled);
    NotAmongTwo(approved, disabled, Version("3", E.Shadow, 3).identity);
  }

  /** Approved at 1 and disabled at 2, nothing may trade; whatever is filed at 3 as version 3, approved for paper at
      most, makes the approved one the champion again, and it may trade live. */
  lemma LaterVersionRevives(third: E.Record, slot: nat)
    requires third.identity == E.Identity("NSE", "trend", "5m", "3") && third.validatedAt == 3
    requires !third.status.Disabled? && !third.status.LiveApproved?
    ensures var approved := Version("1", E.LiveApproved, 1);
      var files := [approved, Version("2", E.Disabled, 2)];
      var q := E.Query(E.Identity("NSE", "trend", "5m", ""), E.Live, E.Unknown, 0.9);
      && !E.Evaluate(files, q, true).pipelineAllowed
      && E.Selected(E.Put(files, third, slot), q) == Some(approved)
      && E.Evaluate(E.Put(files, third, slot), q, true).executionAllowed
  {
    var approved := Version("1", E.LiveApproved, 1);
    var files := [approved, Version("2", E.Disabled, 2)];
    var q := E.Query(E.Identity("NSE", "trend", "5m", ""), E.Live, E.Unknown, 0.9);
    hide E.Put, E.Newest, Filter, E.IndexOf, E.Latest, E.SelectFor, E.Evaluate, E.RegimeAdmits;
    DisabledListing(q.grain);
    UnknownRegimeAdmits(approved, 0.9);
    assert approved in files;
    E.ChallengerUncoversChampionIff(files, third, slot, q.grain, E.Live);
    E.LiveExecutionIff(E.Put(files, third, slot), q, true);
    E.OnlyPaperAndLiveExecute(files, q, true);
  }

  /** A mere SHADOW record will do. */
  lemma ShadowRevivesDisabledStrategy(slot: nat)
    ensures var files := [Version("1", E.LiveApproved, 1), Version("2", E.Disabled, 2)];
      var q := E.Query(E.Identity("NSE", "trend", "5m", ""), E.Live, E.Unknown, 0.9);
      && !E.Evaluate(files, q, true).pipelineAllowed
      && E.Evaluate(E.Put(files, Version("3", E.Shadow, 3), slot), q, true).executionAllowed
  {
    LaterVersionRevives(Version("3", E.Shadow, 3), slot);
    hide E.Put, E.Evaluate;
  }

  // ---- Migrations that come in between ----

  /** What a passed validation of version `version` leaves in the legacy registry at this moment. */
  function Passed(version: string, at: int): S.Version {
    S.Version("trend", version, "5m", "SWING", true, at, 100, {}, {}, 0.0, 0.0, false, None)
  }

  function JobFor(version: string, at: int): M.Job {
    M.Job([Passed(version, at)], [], "NSE", at)
  }

  lemma ValidationMigrates(version: string, at: int)
    requires version != "" && at < 100
    ensures var job, key := JobFor(version, at), M.Key("trend", "5m", version);
      && M.Migratable(job, key) && M.IdentityOf(job, key) == E.Identity("NSE", "trend", "5m", version)
      && var r := M.MigratedRecord(job, key);
         r.status.PaperApproved? && r.validatedAt == at && r.minimumStrategyConfidence == 0.0 && r.disabledRegimes == {}
  {
    var job, key := JobFor(version, at), M.Key("trend", "5m", version);
    var v := Passed(version, at);
    assert [v][..0] == [];
    assert Filter([v][..0], M.InGroup(key, [])) == [];
    assert M.GroupFor(job, key) == [v];
    assert S.Newest([v][..0]).None?;
    assert S.Newest([v]) == Some(v);
    assert M.Statuses([v], at) == {S.Validated} && M.Horizons([v]) == {"SWING"} && M.Approvals([v]) == {{}};
    assert M.NoneApproves([v]);
  }

  /** A gate looks version 1 up before the validation files it; the operator disables it; the gate writes what it had
      decided: version 1 is approved for paper and trades. */
  lemma LateMigrationOverwritesDisabled(slot: nat, late: nat)
    ensures var disabled := Version("1", E.Disabled, 2);
      var id, key := disabled.identity, M.Key("trend", "5m", "1");
      var steps := [R.Register(disabled, slot), R.Migrate(JobFor("1", 1), key, 0, late)];
      && R.Legal(steps) && R.Undercut(steps, 0, id)
      && E.Get(R.Run(steps), id) == Some(M.MigratedRecord(JobFor("1", 1), key))
      && E.Evaluate(R.Run(steps), E.Query(id, E.Paper, E.Unknown, 0.9), true).executionAllowed
  {
    hide R.Run, E.Get, M.MigratedRecord, M.Migratable, Version, JobFor, Passed, E.Evaluate, R.Undercut;
    var disabled := Version("1", E.Disabled, 2);
    var id, key := disabled.identity, M.Key("trend", "5m", "1");
    var steps := [R.Register(disabled, slot), R.Migrate(JobFor("1", 1), key, 0, late)];
    ValidationMigrates("1", 1);
    LookedTooEarly(steps, id);
    R.OperatorsAreRespectedIff(steps, 0, id);
    OnlySecondIsOutOfDate(steps, id);
    PaperTrades(R.Run(steps), M.MigratedRecord(JobFor("1", 1), key));
  }

  lemma LookedTooEarly(steps: seq<R.Step>, id: E.Identity)
    requires R.Legal(steps) && |steps| == 2 && steps[1].Migrate? && steps[1].seen == 0
    requires R.Offered(steps[1]).identity == id && M.IdentityOf(steps[1].job, steps[1].key) == id
    ensures R.OutOfDate(steps, 0, 1, id) && R.Undercut(steps, 0, id)
  {
    R.NothingFiledYet(steps);
    hide R.Run, R.Legal, M.MigratedRecord, M.Migratable;
    assert E.Get([], id).None?;
  }

  lemma OnlySecondIsOutOfDate(steps: seq<R.Step>, id: E.Identity)
    requires R.Legal(steps) && |steps| == 2 && R.Overwritten(steps, 0, id)
    ensures E.Get(R.Run(steps), id) == Some(R.Offered(steps[1]))
  {
    hide R.Run, R.Legal, E.Get, R.Offered, R.HeldBack;
  }

  /** An unknown regime blocks nothing and weakens nothing. */
  lemma UnknownRegimeAdmits(r: E.Record, confidence: real)
    requires 0.0 <= r.minimumStrategyConfidence <= confidence <= 1.0
    ensures E.RegimeAdmits(r, E.Unknown, confidence)
  {
    assert E.IsWeight(1.0, r, E.Unknown);
  }

  lemma PaperTrades(files: seq<E.Record>, r: E.Record)
    requires E.Get(files, r.identity) == Some(r) && r.status.PaperApproved? && r.minimumStrategyConfidence == 0.0
    ensures E.Evaluate(files, E.Query(r.identity, E.Paper, E.Unknown, 0.9), true).executionAllowed
  {
    hide E.Get, E.Evaluate, E.RegimeAdmits;
    UnknownRegimeAdmits(r, 0.9);
    E.PaperExecutionIff(files, E.Query(r.identity, E.Paper, E.Unknown, 0.9), true);
  }

  /** Version 1 approved for LIVE at 1, version 2 DISABLED at 2, both by an operator; then a gate migrates the
      validation of version 3, and version 1 may trade live again, no operator acting. */
  lemma MigrationRevivesDisabledStrategy(slot: nat)
    ensures var steps := [R.Register(Version("1", E.LiveApproved, 1), 0), R.Register(Version("2", E.Disabled, 2), 1)];
      var migrated := steps + [R.Migrate(JobFor("3", 3), M.Key("trend", "5m", "3"), 2, slot)];
      var q := E.Query(E.Identity("NSE", "trend", "5m", ""), E.Live, E.Unknown, 0.9);
      && R.Legal(steps) && R.Legal(migrated)
      && !E.Evaluate(R.Run(steps), q, true).executionAllowed
      && E.Evaluate(R.Run(migrated), q, true).executionAllowed
  {
    var approved, disabled := Version("1", E.LiveApproved, 1), Version("2", E.Disabled, 2);
    var steps := [R.Register(approved, 0), R.Register(disabled, 1)];
    var job, key := JobFor("3", 3), M.Key("trend", "5m", "3");
    TwoRegistrations(approved, disabled);
    ValidationMigrates("3", 3);
    hide R.Run, R.Legal, M.Migratable, JobFor, Passed, E.Evaluate, E.Put, E.Get, M.Settled, M.MigratedRecord;
    R.MigratedStep(steps, job, key, 2, slot);
    assert steps[..2] == steps;
    NotAmongTwo(approved, disabled, M.IdentityOf(job, key));
    LaterVersionRevives(M.MigratedRecord(job, key), slot);
    E.OnlyPaperAndLiveExecute(R.Run(steps), E.Query(E.Identity("NSE", "trend", "5m", ""), E.Live, E.Unknown, 0.9),
                              true);
  }

  lemma TwoRegistrations(x: E.Record, y: E.Record)
    requires x.identity != y.identity
    ensures var steps := [R.Register(x, 0), R.Register(y, 1)];
      R.Legal(steps) && R.Run(steps) == [x, y]
  {
    var steps := [R.Register(x, 0), R.Register(y, 1)];
    assert steps[..1] == [R.Register(x, 0)] && [R.Register(x, 0)][..0] == [];
    assert R.Run([R.Register(x, 0)]) == [x];
    assert E.IndexOf([x], y.identity).None? by { assert [x][..0] == []; }
    assert E.Put([x], y, 1) == [x, y];
  }

  // ---- The equity curve after a forced close ----

  function FlatBars(n: nat): (bars: seq<B.Bar>)
    ensures |bars| == n && forall i :: 0 <= i < n ==> bars[i] == B.Bar(i, 100.0, 100.0, 100.0, 100.0, 1.0)
  {
    seq(n, i => B.Bar(i, 100.0, 100.0, 100.0, 100.0, 1.0))
  }

  function AlwaysBuy(): B.Strategy<bool> {
    B.Strategy(true, (state, bar, history) => (state, B.Buy))
  }

  /** One bar past the lookback, one BUY and a commission of 1%: the position is closed after the last mark, so the
      curve ends one exit charge above the final capital. */
  lemma CurveMissesTheForcedClose(capital: real)
    ensures var e := B.Setup(capital, B.Flat(0.01, 0.0), AlwaysBuy());
      var curve, final := B.LoopState(e, FlatBars(21), 21).equity, B.Final(e, FlatBars(21));
      && curve != [] && curve[|curve| - 1] != final.capital
      && |final.trades| == 1 && final.trades[0].exitCharge == 1.0
  {
    var e := B.Setup(capital, B.Flat(0.01, 0.0), AlwaysBuy());
    var data := FlatBars(21);
    assert B.LoopState(e, data, 20) == B.Start(e);
    B.PositionFollowsSignals(e, data, 20);
    assert B.LoopState(e, data, 21).position == 1;
    B.CurveEndsAtFinalCapital(e, data);
    hide B.LoopState;
  }

  /** Closes of zero up to the last bar, whose close is one. */
  function Awakening(): (bars: seq<B.Bar>)
    ensures |bars| == 22 && bars[20].close == 0.0 && bars[21].close == 1.0
  {
    seq(22, i => B.Bar(i, 0.0, 1.0, 0.0, if i == 21 then 1.0 else 0.0, 1.0))
  }

  /** Flat rates beyond the bound of `OnlyCost` can help: bought for nothing and closed at a negative fill, the negative
      charge of the sale leaves more than the close-to-close move. */
  lemma ExtremeCostsHelp(commission: real, slippage: real)
    requires commission >= 0.0 && slippage >= 0.0 && (1.0 - slippage) * (1.0 - commission) > 1.0
    ensures var trades := B.Final(B.Setup(1.0, B.Flat(commission, slippage), AlwaysBuy()), Awakening()).trades;
      |trades| == 1 && trades[0].entryAt == 20 && trades[0].exitAt == 21 && B.NetPnl(trades[0]) > 1.0
  {
    var e, data := B.Setup(1.0, B.Flat(commission, slippage), AlwaysBuy()), Awakening();
    assert B.LoopState(e, data, 20) == B.Start(e);
    B.PositionFollowsSignals(e, data, 20);
    B.PositionFollowsSignals(e, data, 21);
    B.FillsAreTheirs(e, data);
    hide B.LoopState;
    var t := B.Final(e, data).trades[0];
    assert t.exitPrice - t.exitCharge == (1.0 - slippage) * (1.0 - commission);
  }

  // ---- What one look at the portfolio lets through ----

  /** Paper trading with the gate off, an empty portfolio, one sector. */
  function PaperWorld(limits: Limits): World {
    World(Portfolio(Some(1000.0), [], map[]), DailyStats(0, 0.0, 0.0, false), limits, symbol => "Energy", true,
          false, "market_paper", [], E.Paper, E.Unknown, false)
  }

  function OrdinaryLimits(): Limits {
    Limits(10, 100.0, 40.0, 1.5, 10.0, 1, 50.0, 20.0, 30.0, 1, 0.7, false, false)
  }

  /** A candidate worth 40% of the capital. */
  function Candidate(symbol: string): Signal {
    Signal(symbol, symbol, E.Identity("NSE", "trend", "5m", ""), [], [], [], None, Some(true), "BUY", 0.8, None,
           None, None, None, None, Some(2.0), None, 100.0, 95.0, 40.0, 0, None, None)
  }

  lemma CandidateMayTrade(s: Signal, limits: Limits)
    requires s.grain == E.Identity("NSE", "trend", "5m", "")
    ensures Assess(s, PaperWorld(limits)).executionAllowed
    ensures Assess(s, PaperWorld(limits)).pipelineAllowed && Assess(s, PaperWorld(limits)).qwenAllowed
  {
  }

  /** The candidate, sized by its percentage, or by a quantity worth half of the capital. */
  predicate Ordinary(s: Signal) {
    && s.grain == E.Identity("NSE", "trend", "5m", "") && s.entryPrice == 100.0 && s.stopLoss == 95.0
    && s.riskReward == Some(2.0)
    && ((s.positionPct == 40.0 && s.quantity == 0) || (s.positionPct == 0.0 && s.quantity == 5))
  }

  lemma CandidateHasNoFailures(s: Signal)
    requires Ordinary(s)
    ensures Failures(RunRiskChecks(s, PaperWorld(OrdinaryLimits()), true)) == []
  {
    var w := PaperWorld(OrdinaryLimits());
    CandidateMayTrade(s, w.limits);
    hide Assess;
    assert ProjectedPct(s, w.portfolio) <= 50.0;
    assert Filter(w.portfolio.positions, InSector("Energy", w.sector)) == [];
    ChecksWithoutFailures(RunRiskChecks(s, w, true));
    hide Filter, AverageConfidence;
  }

  /** A candidate both gates let through. */
  lemma CandidatePasses(symbol: string)
    ensures var w := PaperWorld(OrdinaryLimits());
      PassesFinal(w)(Candidate(symbol)) && G.Level(Candidate(symbol), w) == 5 && !KillSwitchOn(w)
  {
    var s, w := Candidate(symbol), PaperWorld(OrdinaryLimits());
    CandidateHasNoFailures(s);
    C.NoMoreFailures(RunRiskChecks(s, w, true), Check(true, ModeIsolation, true));
    CandidateMayTrade(s, w.limits);
    CandidateHasNoFailures(G.Attached(s, Assess(s, w)));
    hide Assess, RunRiskChecks, Failures;
  }

  /** The sector was empty, so the sector rule passes; after the trade it holds 40% where 30% is the limit. */
  lemma SectorIsOverfilled(symbol: string)
    ensures var w := PaperWorld(OrdinaryLimits());
      && PassesFinal(w)(Candidate(symbol))
      && SectorPct(Execute(w.portfolio, Candidate(symbol)), "Energy", w.sector) > w.limits.maxSectorPct
  {
    hide PassesFinal;
    CandidatePasses(symbol);
    SectorAfterApproval(Candidate(symbol), PaperWorld(OrdinaryLimits()));
  }

  /** A quantity of five at 100 with a stated size of 0% passes too, and opens 50% of the capital where 40% is the
      limit. */
  lemma QuantityEvadesPositionLimit(symbol: string)
    ensures var s, w := Candidate(symbol).(positionPct := 0.0, quantity := 5), PaperWorld(OrdinaryLimits());
      PassesFinal(w)(s) && SharePct(s, Capital(w.portfolio)) > w.limits.maxPositionPct
  {
    var s, w := Candidate(symbol).(positionPct := 0.0, quantity := 5), PaperWorld(OrdinaryLimits());
    CandidateHasNoFailures(s);
    C.NoMoreFailures(RunRiskChecks(s, w, true), Check(true, ModeIsolation, true));
    assert PassesFinal(w)(s);
    hide PassesFinal, RunRiskChecks, Failures;
    PositionSizeAfterApproval(s, w);
  }

  /** Two candidates in different symbols, each of which passes: executed together they break the limits on positions,
      on positions per sector and on exposure. */
  lemma BatchBreaksLimits(one: string, other: string)
    requires one != other
    ensures var w := PaperWorld(OrdinaryLimits());
      var now := ExecuteAll(w.portfolio, ApprovedFinal([Candidate(one), Candidate(other)], w));
      && SymbolsApart(now.positions)
      && |now.positions| > w.limits.maxPositions
      && !SectorWithin(now.positions, "Energy", w)
      && !ExposureWithin(Exposure(now.positions), Capital(now), w)
  {
    var w, s, t := PaperWorld(OrdinaryLimits()), Candidate(one), Candidate(other);
    hide PassesFinal, ExecuteAll, Candidate, Notionals;
    PairPasses(one, other);
    ApprovedAreThePassing([s, t], w, w.portfolio);
    BatchKeepsSymbolsApart([s, t], w);
    PairTotals(one, other);
    ExecutedTotals(w.portfolio, [s, t], "Energy", w);
  }

  lemma PairPasses(one: string, other: string)
    requires one != other
    ensures var w, batch := PaperWorld(OrdinaryLimits()), [Candidate(one), Candidate(other)];
      Passing(batch, w) == batch && PassingApart(batch, w)
  {
    hide PassesFinal, ApprovedFinal, Filter, PaperWorld, KillSwitchOn, G.Level;
    var w, s, t := PaperWorld(OrdinaryLimits()), Candidate(one), Candidate(other);
    CandidatePasses(one);
    CandidatePasses(other);
    assert [s, t] == [s] + [t] && [s] == [] + [s];
    NobodyPasses(w);
    ApprovedOneMore([], s, w);
    ApprovedOneMore([s], t, w);
  }

  lemma NobodyPasses(w: World)
    ensures Passing([], w) == []
  {
  }

  lemma PairTotals(one: string, other: string)
    ensures var w, batch := PaperWorld(OrdinaryLimits()), [Candidate(one), Candidate(other)];
      Notionals(batch, 1000.0) == 800.0 && |Filter(batch, TradesIn("Energy", w))| == 2
  {
    var w, s, t := PaperWorld(OrdinaryLimits()), Candidate(one), Candidate(other);
    FilterConcat([s], [t], TradesIn("Energy", w));
    assert [s, t] == [s] + [t];
    assert Notionals([s], 1000.0) == 400.0;
    assert [s, t][..1] == [s];
  }

  /** And one candidate proposed under two identifiers is traded twice. */
  lemma TwinsBreakSymbols(symbol: string, otherId: string)
    ensures var w, s := PaperWorld(OrdinaryLimits()), Candidate(symbol);
      |ApprovedFinal([s, s.(id := otherId)], w)| == 2
      && !SymbolsApart(ExecuteAll(w.portfolio, ApprovedFinal([s, s.(id := otherId)], w)).positions)
  {
    hide PassesFinal;
    CandidatePasses(symbol);
    TwinsAreBothApproved(Candidate(symbol), otherId, PaperWorld(OrdinaryLimits()));
  }

  // ---- The candidate a low-confidence regime drops ----

  lemma CandidateThroughGate(symbol: string)
    ensures var s, w := Candidate(symbol).(declaredMode := Some("market_paper")), PaperWorld(OrdinaryLimits());
      !KillSwitchOn(w) && G.Level(s, w) == 5
      && G.Passed([s], w, false) == [G.ThroughGate(s, w)] && G.Rejected([s], w, false) == []
  {
    var s, w := Candidate(symbol).(declaredMode := Some("market_paper")), PaperWorld(OrdinaryLimits());
    CandidateMayTrade(s, w.limits);
    CandidateHasNoFailures(G.Attached(s, Assess(s, w)));
    hide Assess, RunRiskChecks, Failures, G.ThroughGate;
    assert [s][..0] == [];
    assert G.PassedGate([s][..0], w) == [] && G.RejectedGate([s][..0], w) == [];
  }

  /** One candidate past the first gate, regime confidence 0.2: it is neither approved, nor refused, nor rejected. */
  lemma LowConfidenceLosesCandidate(symbol: string, round: SV.Round, answer: SV.Answer, reviewedAt: int,
                                    entries: RG.Entries)
    ensures var w := PaperWorld(OrdinaryLimits());
      var i := C.Inputs([Candidate(symbol)], w, w, false, 0.2, false, round, answer, reviewedAt);
      && C.Times(i.signals, symbol) == 1
      && C.Cycle(i, entries) == C.CycleResult([], [], [])
  {
    var w := PaperWorld(OrdinaryLimits());
    var i := C.Inputs([Candidate(symbol)], w, w, false, 0.2, false, round, answer, reviewedAt);
    assert C.Times(i.signals, symbol) == 1;
    var entered := C.Entered(i);
    assert entered == [Candidate(symbol).(declaredMode := Some("market_paper"))];
    CandidateThroughGate(symbol);
  }

  // ---- Candidates that share an identifier ----

  /** Nothing needs review, and only one strategy is active. */
  function QuietRound(): SV.Round {
    SV.Round(Context(E.Unknown, "", StepSizes(0.05, 0.1, 5.0, 20.0)), x => x, {"trend"},
             signal => SV.Assessment(false, 0), 60, 5, 0)
  }

  function Dormant(symbol: string): Signal {
    Candidate(symbol).(grain := E.Identity("NSE", "dormant", "5m", ""))
  }

  function SharedBatch(): RG.Batch {
    RG.Batch([Dormant("A").(id := "x"), Candidate("B").(id := "x")], QuietRound(), SV.Failed, 0)
  }

  /** Of two candidates under one identifier the later takes both places: the active one is validated twice, and the one
      whose strategy is not active is neither validated nor rejected. */
  lemma SharedIdentifiersCollide(entries: RG.Entries)
    ensures var t := SV.WithValidation(Candidate("B").(id := "x"), Validation(Approve, 1.0, ClearContext));
      RG.BatchOutcome(SharedBatch(), entries) == [t, t]
  {
    var b := SharedBatch();
    var s, t := b.signals[0], b.signals[1];
    hide RG.BatchOutcome, RG.Completed, SV.WithValidation, Candidate, Dormant;
    RG.EveryoneIsPlaced(b, entries);
    CompletedLater(entries);
  }

  lemma CompletedLater(entries: RG.Entries)
    ensures RG.Completed(SharedBatch(), entries) ==
      map["x" := SV.WithValidation(Candidate("B").(id := "x"), Validation(Approve, 1.0, ClearContext))]
  {
    hide *;
    NothingNeedsReview();
    NothingQueued(SharedBatch(), entries);
    LaterOverwrites(SharedBatch().signals[0], SharedBatch().signals[1], SV.ByTriage(QuietRound()));
  }

  lemma LaterOverwrites(s: Signal, t: Signal, rule: Signal -> Validation)
    requires s.id == t.id
    ensures SV.CompleteAll(map[], [s, t], rule) == map[t.id := SV.WithValidation(t, rule(t))]
  {
    SV.CompleteOne(map[], [], s, rule);
    SV.CompleteOne(map[], [s], t, rule);
    assert [] + [s] == [s] && [s] + [t] == [s, t];
    assert SV.CompleteAll(map[], [], rule) == map[];
    hide SV.CompleteAll, SV.WithValidation;
  }

  lemma NothingNeedsReview()
    ensures var b, r := SharedBatch(), QuietRound();
      && (forall s :: s in b.signals ==> !SV.NeedsReview(r)(s)) && b.round == r
      && |b.signals| == 2 && b.signals == [b.signals[0], b.signals[1]] && b.signals[0].id == b.signals[1].id == "x"
      && b.signals[1] == Candidate("B").(id := "x")
      && SV.ByTriage(r)(b.signals[1]) == Validation(Approve, 1.0, ClearContext)
  {
    assert SharedBatch().signals[1].grain.strategy in ["trend"];
  }

  /** With nothing to review, a batch is completed by triage alone. */
  lemma NothingQueued(b: RG.Batch, entries: RG.Entries)
    requires forall s :: s in b.signals ==> !SV.NeedsReview(b.round)(s)
    ensures RG.Completed(b, entries) == SV.CompleteAll(map[], b.signals, SV.ByTriage(b.round))
  {
    hide SV.CompleteAll, SV.NeedsReview, SV.IsActive;
    KeepAll(b.signals, SV.Clear(b.round));
    FilterNone(b.signals, SV.NeedsReview(b.round));
    EmptyQueue(b.round, entries);
    var now := SV.CompleteAll(map[], b.signals, SV.ByTriage(b.round));
    NobodyAdded(now, SV.ByCache(b.round, entries));
    NobodyAdded(now, SV.Always(Validation(Deferred, 0.0, Capacity)));
  }

  lemma EmptyQueue(r: SV.Round, entries: RG.Entries)
    ensures SV.Sorted([], r) == [] && SV.Misses([], r, entries) == [] && SV.LeftOver([], r, entries) == []
    ensures Filter([], SV.Hit(r, entries)) == []
  {
  }

  lemma NobodyAdded(now: map<string, Signal>, rule: Signal -> Validation)
    ensures SV.CompleteAll(now, [], rule) == now && SV.FailAll(now, []) == now
  {
  }

  lemma {:induction false} KeepAll(signals: seq<Signal>, p: Signal -> bool)
    requires forall s :: s in signals ==> p(s)
    ensures Filter(signals, p) == signals
  {
    if signals != [] {
      assert signals == signals[..|signals| - 1] + [signals[|signals| - 1]];
      KeepAll(signals[..|signals| - 1], p);
    }
  }
}
