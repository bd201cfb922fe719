/** One trading cycle on the shared-context path: gate, regime router, validation, final risk. */
module TradingCycle {
  import opened Common
  import opened VerdictCache
  import opened SignalValidation
  import opened ReviewGuarantees
  import opened RiskCompliance
  import G = PreLlmGate
  import E = Eligibility
  import ER = EligibilityRuns

  /** Everything a cycle depends on. `gate` and `final` are what the two deterministic gates see: the clock, the
      registry and the portfolio may have moved in between. */
  datatype Inputs = Inputs(
    signals: seq<Signal>, gate: World, final: World, degraded: bool, regimeConfidence: real, spent: bool,
    round: Round, answer: Answer, reviewedAt: int)

  datatype CycleResult = CycleResult(approved: seq<Signal>, refused: seq<Signal>, riskRejected: seq<RiskRejection>)

  /** A candidate that declares another execution mode cannot enter the cycle at all. */
  predicate ForeignMode(signals: seq<Signal>, mode: string) {
    exists s :: s in signals && s.declaredMode.Some? && s.declaredMode.value != mode
  }

  function Stamp(signals: seq<Signal>, mode: string): (stamped: seq<Signal>)
    ensures |stamped| == |signals|
    ensures forall i :: 0 <= i < |signals| ==> stamped[i] == signals[i].(declaredMode := Some(mode))
  {
    if signals == [] then []
    else Stamp(signals[..|signals| - 1], mode) + [signals[|signals| - 1].(declaredMode := Some(mode))]
  }

  function Barred(s: Signal): bool {
    s.decision.Some? && (!s.decision.value.pipelineAllowed || !s.decision.value.qwenAllowed)
  }

  function Reviewable(s: Signal): bool {
    !Barred(s)
  }

  /** The router after the regime agent. */
  predicate EndsAfterRegime(i: Inputs) {
    KillSwitchOn(i.gate) || i.regimeConfidence < 0.3
  }

  function Entered(i: Inputs): seq<Signal> {
    Stamp(i.signals, i.gate.mode)
  }

  function GatePassed(i: Inputs): seq<Signal> {
    G.Passed(Entered(i), i.gate, i.spent)
  }

  function BatchOf(i: Inputs): Batch {
    Batch(Filter(GatePassed(i), Reviewable), i.round, i.answer, i.reviewedAt)
  }

  ghost function ValidatedIn(i: Inputs, entries: Entries): seq<Signal> {
    Filter(BatchOutcome(BatchOf(i), entries), Approved)
  }

  ghost function RefusedIn(i: Inputs, entries: Entries): seq<Signal> {
    Filter(GatePassed(i), Barred) + Filter(BatchOutcome(BatchOf(i), entries), NotApproved)
  }

  /** The cycle reaches the graph: the shared context is sound and something passed the first gate. */
  predicate ReachesGraph(i: Inputs) {
    !i.degraded && GatePassed(i) != []
  }

  ghost function Cycle(i: Inputs, entries: Entries): CycleResult {
    var rejected := G.Rejected(Entered(i), i.gate, i.spent);
    if i.degraded then CycleResult([], [], G.AllStopped(Entered(i), SharedContext))
    else if GatePassed(i) == [] || EndsAfterRegime(i) then CycleResult([], [], rejected)
    else
      var validated := ValidatedIn(i, entries);
      CycleResult(ApprovedFinal(validated, i.final), RefusedIn(i, entries),
                  rejected + RejectedFinal(validated, i.final))
  }

  // ---- Conservation ----

  /** How often an identifier occurs. */
  function Times(signals: seq<Signal>, id: string): nat {
    if signals == [] then 0 else Times(signals[..|signals| - 1], id) + if signals[|signals| - 1].id == id then 1 else 0
  }

  function TimesIn(rejected: seq<RiskRejection>, id: string): nat {
    if rejected == [] then 0
    else TimesIn(rejected[..|rejected| - 1], id) + if rejected[|rejected| - 1].signal.id == id then 1 else 0
  }

  function TimesOver(r: CycleResult, id: string): nat {
    Times(r.approved, id) + Times(r.refused, id) + TimesIn(r.riskRejected, id)
  }

  lemma {:induction false} TimesAppend(xs: seq<Signal>, ys: seq<Signal>, id: string)
    ensures Times(xs + ys, id) == Times(xs, id) + Times(ys, id)
    decreases |ys|
  {
    if ys == [] {
      assert xs + ys == xs;
    } else {
      TimesAppend(xs, ys[..|ys| - 1], id);
      assert (xs + ys)[..|xs + ys| - 1] == xs + ys[..|ys| - 1];
    }
  }

  lemma {:induction false} TimesInAppend(xs: seq<RiskRejection>, ys: seq<RiskRejection>, id: string)
    ensures TimesIn(xs + ys, id) == TimesIn(xs, id) + TimesIn(ys, id)
    decreases |ys|
  {
    if ys == [] {
      assert xs + ys == xs;
    } else {
      TimesInAppend(xs, ys[..|ys| - 1], id);
      assert (xs + ys)[..|xs + ys| - 1] == xs + ys[..|ys| - 1];
    }
  }

  lemma OneMoreTime(xs: seq<Signal>, x: Signal, id: string)
    ensures Times(xs + [], id) == Times(xs, id)
    ensures Times(xs + [x], id) == Times(xs, id) + if x.id == id then 1 else 0
  {
    assert (xs + [x])[..|xs|] == xs && xs + [] == xs;
  }

  lemma OneMoreRejection(xs: seq<RiskRejection>, x: RiskRejection, id: string)
    ensures TimesIn(xs + [], id) == TimesIn(xs, id)
    ensures TimesIn(xs + [x], id) == TimesIn(xs, id) + if x.signal.id == id then 1 else 0
  {
    assert (xs + [x])[..|xs|] == xs && xs + [] == xs;
  }

  lemma {:induction false} SplitTimes(xs: seq<Signal>, p: Signal -> bool, q: Signal -> bool, id: string)
    requires forall s :: q(s) <==> !p(s)
    ensures Times(Filter(xs, p), id) + Times(Filter(xs, q), id) == Times(xs, id)
  {
    if xs != [] {
      var last := xs[|xs| - 1];
      SplitTimes(xs[..|xs| - 1], p, q, id);
      TimesAppend(Filter(xs[..|xs| - 1], p), [last], id);
      TimesAppend(Filter(xs[..|xs| - 1], q), [last], id);
      assert Times([last], id) == if last.id == id then 1 else 0;
    }
  }

  lemma {:induction false} SameTimes(xs: seq<Signal>, ys: seq<Signal>, id: string)
    requires |xs| == |ys| && forall i :: 0 <= i < |xs| ==> xs[i].id == ys[i].id
    ensures Times(xs, id) == Times(ys, id)
  {
    if xs != [] {
      SameTimes(xs[..|xs| - 1], ys[..|ys| - 1], id);
    }
  }

  lemma {:induction false} AllStoppedTimes(signals: seq<Signal>, rule: Rule, id: string)
    ensures TimesIn(G.AllStopped(signals, rule), id) == Times(signals, id)
  {
    if signals != [] {
      AllStoppedTimes(signals[..|signals| - 1], rule, id);
      TimesInAppend(G.AllStopped(signals[..|signals| - 1], rule),
                    [RiskRejection(signals[|signals| - 1], [G.Failed(rule)])], id);
    }
  }

  lemma GateKeepsId(s: Signal, w: World)
    ensures G.ThroughGate(s, w).id == s.id && G.StoppedAt(s, w).signal.id == s.id
  {
    hide Assess, RunRiskChecks, G.Level, Failures;
  }

  lemma {:induction false} GateTimes(signals: seq<Signal>, w: World, id: string)
    ensures Times(G.PassedGate(signals, w), id) + TimesIn(G.RejectedGate(signals, w), id) == Times(signals, id)
  {
    hide G.Level, G.ThroughGate, G.StoppedAt;
    if signals != [] {
      var front, last := signals[..|signals| - 1], signals[|signals| - 1];
      GateTimes(front, w, id);
      GateKeepsId(last, w);
      assert signals == front + [last];
      G.EachPassesOrIsStopped(front, last, w);
      OneMoreTime(G.PassedGate(front, w), G.ThroughGate(last, w), id);
      OneMoreRejection(G.RejectedGate(front, w), G.StoppedAt(last, w), id);
      OneMoreTime(front, last, id);
      hide *;
    }
  }

  lemma {:induction false} FinalTimes(signals: seq<Signal>, w: World, id: string)
    ensures Times(ApprovedFinal(signals, w), id) + TimesIn(RejectedFinal(signals, w), id) == Times(signals, id)
  {
    if signals != [] {
      var front, last := signals[..|signals| - 1], signals[|signals| - 1];
      FinalTimes(front, w, id);
      var checked := AfterChecks(last, w, true);
      assert checked.id == last.id;
      OneMoreTime(ApprovedFinal(front, w), checked, id);
      OneMoreRejection(RejectedFinal(front, w), RiskRejection(checked, FinalFailures(last, w)), id);
      hide AfterChecks, PassesFinal, FinalFailures;
    }
  }

  lemma FirstGateTimes(i: Inputs, id: string)
    ensures Times(GatePassed(i), id) + TimesIn(G.Rejected(Entered(i), i.gate, i.spent), id) == Times(i.signals, id)
  {
    SameTimes(Entered(i), i.signals, id);
    AllStoppedTimes(Entered(i), KillSwitch, id);
    AllStoppedTimes(Entered(i), HardBudget, id);
    GateTimes(Entered(i), i.gate, id);
    hide KillSwitchOn, G.PassedGate, G.RejectedGate, G.AllStopped, Entered;
  }

  lemma ReviewTimes(i: Inputs, entries: Entries, id: string)
    ensures Times(ValidatedIn(i, entries), id) + Times(RefusedIn(i, entries), id) == Times(GatePassed(i), id)
  {
    hide BatchOutcome, GatePassed, Filter, Times;
    var b := BatchOf(i);
    var done := BatchOutcome(b, entries);
    PlacesAreFilled(b, entries);
    SameTimes(done, b.signals, id);
    SplitTimes(done, Approved, NotApproved, id);
    SplitTimes(GatePassed(i), Barred, Reviewable, id);
    TimesAppend(Filter(GatePassed(i), Barred), Filter(done, NotApproved), id);
  }

  /** Every input candidate ends up in exactly one of the approved, refused and risk-rejected lists, unless the cycle
      was ended by the regime router with candidates past the first gate: then exactly those candidates are in none. */
  lemma CycleConserves(i: Inputs, entries: Entries, id: string)
    ensures TimesOver(Cycle(i, entries), id) ==
      Times(i.signals, id) - (if ReachesGraph(i) && EndsAfterRegime(i) then Times(GatePassed(i), id) else 0)
  {
    FirstGateTimes(i, id);
    if i.degraded {
      AllStoppedTimes(Entered(i), SharedContext, id);
      SameTimes(Entered(i), i.signals, id);
      hide Times, TimesIn, GatePassed, Entered, G.AllStopped;
    } else if GatePassed(i) == [] || EndsAfterRegime(i) {
      hide GatePassed, EndsAfterRegime, Entered, G.Rejected, TimesIn;
    } else {
      var rejected := G.Rejected(Entered(i), i.gate, i.spent);
      var validated := ValidatedIn(i, entries);
      ReviewTimes(i, entries, id);
      FinalTimes(validated, i.final, id);
      TimesInAppend(rejected, RejectedFinal(validated, i.final), id);
      hide Times, TimesIn, EndsAfterRegime, GatePassed, ValidatedIn, RefusedIn, G.Rejected, ApprovedFinal,
        RejectedFinal, Entered;
    }
  }

  /** Nothing is lost exactly when the router did not end a cycle that had something left to validate. An active kill
      switch never loses anything: it has already stopped every candidate at the first gate. */
  lemma NothingIsLostIff(i: Inputs, entries: Entries)
    ensures (forall id :: TimesOver(Cycle(i, entries), id) == Times(i.signals, id)) <==>
      !(ReachesGraph(i) && i.regimeConfidence < 0.3)
  {
    forall id ensures TimesOver(Cycle(i, entries), id) ==
      Times(i.signals, id) - (if ReachesGraph(i) && EndsAfterRegime(i) then Times(GatePassed(i), id) else 0)
    {
      CycleConserves(i, entries, id);
    }
    if ReachesGraph(i) {
      var first := GatePassed(i)[|GatePassed(i)| - 1];
      assert Times(GatePassed(i), first.id) > 0;
      assert !KillSwitchOn(i.gate);
    }
    hide Cycle, Times, TimesOver, KillSwitchOn;
  }

  /** Whoever reaches the graph is reviewed, unless the gate's decision forbids the pipeline or a review: then it is
      refused. */
  lemma BarredAreRefused(i: Inputs, entries: Entries, p: Signal)
    requires ReachesGraph(i) && !EndsAfterRegime(i) && p in GatePassed(i)
    ensures p in BatchOf(i).signals <==>
      p.decision.None? || (p.decision.value.pipelineAllowed && p.decision.value.qwenAllowed)
    ensures p !in BatchOf(i).signals ==> p in Cycle(i, entries).refused
  {
    FilterMembers(GatePassed(i), Reviewable);
    FilterMembers(GatePassed(i), Barred);
    hide GatePassed, EndsAfterRegime, BatchOutcome, ApprovedFinal, RejectedFinal, G.Rejected, Filter;
  }

  // ---- What an approved trade has been through ----

  /** Passing the first gate is passing the final one: with registry, regime, mode, portfolio and clock unchanged, no
      confidence and no review in between can make the final gate reject what the first one let through. */
  lemma GatesAgree(s: Signal, w: World, v: Validation)
    requires E.OnePerIdentity(w.files) && s.declaredMode == Some(w.mode)
    requires G.Level(s, w) == 5
    ensures PassesFinal(w)(WithValidation(G.ThroughGate(s, w), v))
  {
    var d := Assess(s, w);
    var attached := G.Attached(s, d);
    var t := WithValidation(G.ThroughGate(s, w), v);
    assert Failures(RunRiskChecks(attached, w, true)) == [];
    DecisionCarries(s, w, v);
    OpinionsDoNotBlock(attached, t, w, true);
    assert ModeOf(t, w) == w.mode;
    NoMoreFailures(RunRiskChecks(t, w, true), Check(true, ModeIsolation, true));
    hide Assess, RunRiskChecks, Failures, G.Level, G.ThroughGate;
  }

  lemma NoMoreFailures(checks: seq<Check>, c: Check)
    requires Failures(checks) == [] && !Blocks(c)
    ensures Failures(checks + [c]) == []
  {
    assert (checks + [c])[..|checks|] == checks;
  }

  lemma DecisionCarries(s: Signal, w: World, v: Validation)
    requires E.OnePerIdentity(w.files)
    ensures var attached, t := G.Attached(s, Assess(s, w)), WithValidation(G.ThroughGate(s, w), v);
      && SameTrade(attached, t) && t.declaredMode == s.declaredMode && attached.declaredMode == s.declaredMode
      && Assess(attached, w) == Assess(t, w)
  {
    var d := Assess(s, w);
    var attached := G.Attached(s, d);
    var t := WithValidation(G.ThroughGate(s, w), v);
    SameDecisionAgain(s, w);
    assert QueryOf(attached, w) == QueryOf(Recorded(s, d), w);
    assert Assess(attached, w) == d;
    assert d.grain.strategy == s.grain.strategy;
    assert QueryOf(t, w) == QueryOf(attached, w);
    hide E.Evaluate;
  }

  lemma {:induction false} PassedOnes(signals: seq<Signal>, w: World)
    ensures forall p :: p in G.PassedGate(signals, w) ==>
      exists s :: s in signals && G.Level(s, w) == 5 && p == G.ThroughGate(s, w)
  {
    hide G.Level, G.ThroughGate;
    if signals != [] {
      PassedOnes(signals[..|signals| - 1], w);
      assert signals == signals[..|signals| - 1] + [signals[|signals| - 1]];
    }
  }

  /** A candidate past the first gate, and what the review made of it. */
  ghost predicate ValidatedFrom(i: Inputs, entries: Entries, p: Signal, v: Signal) {
    && p in GatePassed(i) && MayApprove(p, BatchOf(i), entries)
    && Approved(v) && v == WithValidation(p, v.validation.value)
  }

  lemma ValidatedOnes(i: Inputs, entries: Entries)
    ensures forall v :: v in ValidatedIn(i, entries) ==> exists p :: ValidatedFrom(i, entries, p, v)
  {
    hide MayApprove, BatchOutcome, GatePassed, Filter, Completes, ValidatedFrom;
    var b := BatchOf(i);
    PlacesAreFilled(b, entries);
    FilterMembers(BatchOutcome(b, entries), Approved);
    FilterMembers(GatePassed(i), Reviewable);
    forall v | v in ValidatedIn(i, entries) ensures exists p :: ValidatedFrom(i, entries, p, v) {
      var k :| 0 <= k < |b.signals| && BatchOutcome(b, entries)[k] == v;
      var p :| Completes(p, v, b, entries);
      CompletedIsValidated(i, entries, p, v);
    }
  }

  lemma CompletedIsValidated(i: Inputs, entries: Entries, p: Signal, v: Signal)
    requires Completes(p, v, BatchOf(i), entries) && Approved(v)
    requires forall s :: s in BatchOf(i).signals ==> s in GatePassed(i)
    ensures ValidatedFrom(i, entries, p, v)
  {
    hide MayApprove, GatePassed, Filter, BatchOf;
  }

  /** The history of an executed trade: it was proposed, let through by the first gate, validated with an approval it
      had earned, and let through by the final gate. */
  ghost predicate Earned(i: Inputs, entries: Entries, s: Signal, t: Signal) {
    && G.Level(s, i.gate) == 5
    && MayApprove(G.ThroughGate(s, i.gate), BatchOf(i), entries)
    && exists a: Validation :: (a.outcome.Approve? && Finished(i, G.ThroughGate(s, i.gate), a, t))
  }

  ghost predicate Finished(i: Inputs, p: Signal, a: Validation, t: Signal) {
    PassesFinal(i.final)(WithValidation(p, a)) && t == AfterChecks(WithValidation(p, a), i.final, true)
  }

  lemma HistoryOf(i: Inputs, entries: Entries, v: Signal) returns (s: Signal)
    requires v in ValidatedIn(i, entries)
    ensures s in Entered(i) && s.declaredMode == Some(i.gate.mode) && G.Level(s, i.gate) == 5 && !KillSwitchOn(i.gate)
    ensures ValidatedFrom(i, entries, G.ThroughGate(s, i.gate), v)
  {
    hide ValidatedIn, MayApprove, G.Level, G.ThroughGate, Entered, G.PassedGate, KillSwitchOn, BatchOf;
    ValidatedOnes(i, entries);
    PassedOnes(Entered(i), i.gate);
    assert GatePassed(i) != [] ==> GatePassed(i) == G.PassedGate(Entered(i), i.gate) && !KillSwitchOn(i.gate);
    hide GatePassed;
    var p :| ValidatedFrom(i, entries, p, v);
    s :| s in Entered(i) && G.Level(s, i.gate) == 5 && p == G.ThroughGate(s, i.gate);
    StampedMode(i, s);
  }

  lemma StampedMode(i: Inputs, s: Signal)
    requires s in Entered(i)
    ensures s.declaredMode == Some(i.gate.mode)
  {
  }

  /** Whatever Qwen answers, an executed trade has passed both deterministic gates, and the kill conditions held
      at neither. */
  lemma ExecutedTradesPassedBothGates(i: Inputs, entries: Entries, t: Signal)
    requires t in Cycle(i, entries).approved
    ensures exists s :: s in Entered(i) && Earned(i, entries, s, t)
    ensures !i.gate.switchedOff && i.gate.stats.pnl > -i.gate.limits.maxDailyLoss && DrawdownBelow(i.gate)
    ensures i.final.stats.pnl > -i.final.limits.maxDailyLoss && DrawdownBelow(i.final)
  {
    hide *;
    InFinalGate(i, entries, t);
    ApprovedIndividually(ValidatedIn(i, entries), i.final);
    var v :| v in ValidatedIn(i, entries) && PassesFinal(i.final)(v) && t == AfterChecks(v, i.final, true);
    var s := HistoryOf(i, entries, v);
    EarnedIt(i, entries, s, v, t);
    KillSwitchIff(i.gate);
    KillStopsFinal(v, i.final);
  }

  lemma InFinalGate(i: Inputs, entries: Entries, t: Signal)
    requires t in Cycle(i, entries).approved
    ensures t in ApprovedFinal(ValidatedIn(i, entries), i.final)
  {
    hide ApprovedFinal, ValidatedIn;
  }

  lemma EarnedIt(i: Inputs, entries: Entries, s: Signal, v: Signal, t: Signal)
    requires G.Level(s, i.gate) == 5 && ValidatedFrom(i, entries, G.ThroughGate(s, i.gate), v)
    requires PassesFinal(i.final)(v) && t == AfterChecks(v, i.final, true)
    ensures Earned(i, entries, s, t)
  {
    hide G.Level, G.ThroughGate, PassesFinal, AfterChecks, MayApprove, WithValidation;
    assert Finished(i, G.ThroughGate(s, i.gate), v.validation.value, t);
  }

  lemma KillStopsFinal(v: Signal, w: World)
    requires PassesFinal(w)(v)
    ensures w.stats.pnl > -w.limits.maxDailyLoss && DrawdownBelow(w)
  {
    hide PassesFinal, DrawdownBelow;
    FinalGateIff(v, w);
    assert Meets(DailyLossLimit, v, w) && Meets(Drawdown, v, w);
  }

  /** What holds of an executed trade when it leaves the final gate. */
  ghost predicate Tradable(t: Signal, w: World) {
    && (forall rule: Rule :: !rule.StrategyEligibility? ==> Meets(rule, t, w))
    && t.mtfPassed != Some(false) && t.entryState in G.ENTRY_STATES
    && (t.grain.strategy != "" ==> t.decision.Some? && t.decision.value.executionAllowed)
  }

  lemma PassingIsTradable(v: Signal, w: World)
    requires PassesFinal(w)(v) && v.mtfPassed != Some(false) && v.entryState in G.ENTRY_STATES
    ensures Tradable(AfterChecks(v, w, true), w)
    ensures v.grain.strategy != "" ==>
      AfterChecks(v, w, true).decision == Some(Assess(v, w)) && Assess(v, w).executionAllowed
  {
    hide PassesFinal, Meets, Assess;
    FinalGateIff(v, w);
    StrategyStays(v, w);
    EligibilityIsMet(v, w);
    forall rule: Rule | !rule.StrategyEligibility? ensures Meets(rule, AfterChecks(v, w, true), w) {
      StillMeets(rule, v, w);
    }
  }

  /** Recording the decision touches nothing another rule reads. */
  lemma StillMeets(rule: Rule, v: Signal, w: World)
    requires Meets(rule, v, w) && !rule.StrategyEligibility?
    ensures Meets(rule, AfterChecks(v, w, true), w)
  {
    hide Assess, Filter, InSector, DrawdownBelow;
  }

  lemma EligibilityIsMet(v: Signal, w: World)
    requires Meets(StrategyEligibility, v, w)
    ensures v.grain.strategy != "" ==> Assess(v, w).executionAllowed
  {
    hide Assess;
  }

  lemma StrategyStays(v: Signal, w: World)
    ensures AfterChecks(v, w, true).grain.strategy == v.grain.strategy
  {
  }

  /** Whatever Qwen answers, an executed trade passes every blocking rule: it keeps the portfolio within its limits,
      is within those on its own size, stop, reward and correlation, leaves the daily limits alone, is inside trading
      hours, failed neither the timeframe confirmation nor the entry state, and carries an eligibility decision that
      allows execution. */
  lemma ExecutedTradesAreTradable(i: Inputs, entries: Entries, t: Signal)
    requires t in Cycle(i, entries).approved
    ensures Tradable(t, i.final)
  {
    var v := ApprovedFrom(i, entries, t);
    PassingIsTradable(v, i.final);
    hide *;
  }

  lemma ApprovedFrom(i: Inputs, entries: Entries, t: Signal) returns (v: Signal)
    requires t in Cycle(i, entries).approved
    ensures PassesFinal(i.final)(v) && t == AfterChecks(v, i.final, true)
    ensures v.mtfPassed != Some(false) && v.entryState in G.ENTRY_STATES
  {
    hide *;
    InFinalGate(i, entries, t);
    ApprovedIndividually(ValidatedIn(i, entries), i.final);
    v :| v in ValidatedIn(i, entries) && PassesFinal(i.final)(v) && t == AfterChecks(v, i.final, true);
    var s := HistoryOf(i, entries, v);
    JustValidated(i, entries, s, v);
    GateKeepsEntry(s, i.gate, v.validation.value);
  }

  lemma JustValidated(i: Inputs, entries: Entries, s: Signal, v: Signal)
    requires ValidatedFrom(i, entries, G.ThroughGate(s, i.gate), v)
    ensures v.validation.Some? && v == WithValidation(G.ThroughGate(s, i.gate), v.validation.value)
  {
    hide G.ThroughGate, MayApprove;
  }

  lemma GateKeepsEntry(s: Signal, w: World, validation: Validation)
    requires G.Level(s, w) == 5
    ensures var v := WithValidation(G.ThroughGate(s, w), validation);
      v.mtfPassed != Some(false) && v.entryState in G.ENTRY_STATES
  {
    hide Assess, RunRiskChecks, Failures;
  }

  /** In LIVE an executed trade of a named strategy is backed by a record on file that is LIVE_APPROVED, does not
      block the regime and admits the confidence. */
  lemma LiveTradesAreBacked(i: Inputs, entries: Entries, t: Signal)
    requires t in Cycle(i, entries).approved && i.final.environment.Live? && t.grain.strategy != ""
    ensures t.decision.Some? && t.decision.value.record.Some?
    ensures var r := t.decision.value.record.value;
      r in i.final.files && r.status.LiveApproved? && E.GrantsLive(r, i.final.regime, t.decision.value.original)
  {
    var v := ApprovedFrom(i, entries, t);
    PassingIsTradable(v, i.final);
    assert v.grain.strategy == t.grain.strategy;
    BackedDecision(v, i.final);
    hide *;
  }

  /** End to end: with a registry built by any run of registrations, migrations and placeholders, the record behind a
      LIVE trade is one an operator registered LIVE_APPROVED and has not replaced since. */
  lemma LiveTradesWereRegistered(i: Inputs, entries: Entries, t: Signal, steps: seq<ER.Step>)
    requires t in Cycle(i, entries).approved && i.final.environment.Live? && t.grain.strategy != ""
    requires ER.Legal(steps) && i.final.files == ER.Run(steps)
    ensures t.decision.Some? && t.decision.value.record.Some?
    ensures var r := t.decision.value.record.value;
      r.status.LiveApproved? && ER.LastRegistered(steps, r.identity) == Some(r)
  {
    LiveTradesAreBacked(i, entries, t);
    hide Cycle, E.GrantsLive;
    var r := t.decision.value.record.value;
    ER.FilesAreAccountedFor(steps, r.identity);
    E.ExactRecordIsFound(ER.Run(steps), r);
    hide ER.Run, E.Get, ER.LastRegistered;
  }

  lemma BackedDecision(v: Signal, w: World)
    requires w.environment.Live? && Assess(v, w).executionAllowed
    ensures var d := Assess(v, w);
      d.record.Some? && d.record.value in w.files && d.record.value.status.LiveApproved?
      && E.GrantsLive(d.record.value, w.regime, d.original)
  {
    LiveGrant(w.files, QueryOf(v, w), w.paperGate);
    hide E.Evaluate, E.GrantsLive;
  }

  lemma LiveGrant(files: seq<E.Record>, q: E.Query, paperGate: bool)
    requires q.environment.Live? && E.Evaluate(files, q, paperGate).executionAllowed
    ensures var d := E.Evaluate(files, q, paperGate);
      d.record.Some? && d.record.value in files && d.record.value.status.LiveApproved?
      && E.GrantsLive(d.record.value, q.regime, d.original)
  {
    hide E.Evaluate, E.Selected, E.EvaluateRegime, Clamp01, E.SameGrain;
    E.LiveExecutionIff(files, q, paperGate);
    E.SelectedIsOfTheGrain(files, q);
    E.ClampTwice(q.confidence);
    DecisionCarriesItsInput(files, q, paperGate);
  }

  lemma DecisionCarriesItsInput(files: seq<E.Record>, q: E.Query, paperGate: bool)
    ensures E.Evaluate(files, q, paperGate).record == E.Selected(files, q)
    ensures E.Evaluate(files, q, paperGate).original == Clamp01(q.confidence)
  {
    hide E.Selected, E.EvaluateRegime, Clamp01, E.StatusPolicy;
  }

  // ---- The final gate adds nothing but the clock ----

  lemma ClockAlone(s: Signal, w: World, open: bool)
    requires Forced(w) || (w.inHours && open)
    ensures RunRiskChecks(s, w.(inHours := open), true) == RunRiskChecks(s, w, true)
  {
    var later := w.(inHours := open);
    assert Assess(s, later) == Assess(s, w);
    assert DrawdownPct(later) == DrawdownPct(w);
    hide Assess, DrawdownPct, ProjectedPct, SectorPct, WorstCorrelation, AverageConfidence, Absolute, InSector,
      CorrelationsOf;
  }

  /** A candidate past the first gate passes the final one, with a later clock, exactly inside trading hours. */
  lemma ClockDecides(s: Signal, w: World, open: bool, validation: Validation)
    requires E.OnePerIdentity(w.files) && s.declaredMode == Some(w.mode) && G.Level(s, w) == 5
    ensures PassesFinal(w.(inHours := open))(WithValidation(G.ThroughGate(s, w), validation)) <==> Forced(w) || open
  {
    var v, later := WithValidation(G.ThroughGate(s, w), validation), w.(inHours := open);
    GatesAgree(s, w, validation);
    CheckIsMade(v, w, true);
    CheckIsMade(v, later, true);
    FinalMeans(v, w);
    FinalMeans(v, later);
    assert Forced(later) == Forced(w);
    hide G.Level, G.ThroughGate, PassesFinal, RunRiskChecks, ModeOf, Forced;
    assert Forced(w) || w.inHours;
    if Forced(w) || open {
      ClockAlone(v, w, open);
      SameMode(v, w, later);
    }
  }

  lemma ValidatedPassFinal(i: Inputs, entries: Entries, v: Signal)
    requires E.OnePerIdentity(i.gate.files) && v in ValidatedIn(i, entries)
    requires i.final == i.gate.(inHours := i.final.inHours)
    ensures PassesFinal(i.final)(v) <==> Forced(i.gate) || i.final.inHours
  {
    hide *;
    var s := HistoryOf(i, entries, v);
    JustValidated(i, entries, s, v);
    ClockDecides(s, i.gate, i.final.inHours, v.validation.value);
  }

  lemma SameMode(v: Signal, w: World, later: World)
    requires later == w.(inHours := later.inHours)
    ensures ModeOf(v, later) == ModeOf(v, w)
  {
  }

  lemma FinalMeans(v: Signal, w: World)
    ensures PassesFinal(w)(v) <==> ModeOf(v, w) == w.mode && forall c :: c in RunRiskChecks(v, w, true) ==> !Blocks(c)
  {
    var isolation := Check(ModeOf(v, w) == w.mode, ModeIsolation, true);
    var checks := RunRiskChecks(v, w, true) + [isolation];
    ChecksWithoutFailures(checks);
    assert isolation in checks;
    assert forall c :: c in checks <==> c in RunRiskChecks(v, w, true) || c == isolation;
    hide RunRiskChecks, ModeOf;
  }

  lemma {:induction false} AllOrNone(signals: seq<Signal>, w: World, pass: bool)
    requires forall s :: s in signals ==> (PassesFinal(w)(s) <==> pass)
    ensures |ApprovedFinal(signals, w)| == (if pass then |signals| else 0)
    ensures |RejectedFinal(signals, w)| == (if pass then 0 else |signals|)
  {
    hide PassesFinal, AfterChecks, FinalFailures;
    if signals != [] {
      assert signals == signals[..|signals| - 1] + [signals[|signals| - 1]];
      AllOrNone(signals[..|signals| - 1], w, pass);
    }
  }

  /** With nothing but the clock moving between the gates, the final gate executes every validated candidate inside
      trading hours and none outside. */
  lemma FinalGateFollowsTheClock(i: Inputs, entries: Entries)
    requires E.OnePerIdentity(i.gate.files) && i.final == i.gate.(inHours := i.final.inHours)
    requires ReachesGraph(i) && !EndsAfterRegime(i)
    ensures |Cycle(i, entries).approved| ==
      if Forced(i.gate) || i.final.inHours then |ValidatedIn(i, entries)| else 0
  {
    forall v | v in ValidatedIn(i, entries)
      ensures PassesFinal(i.final)(v) <==> Forced(i.gate) || i.final.inHours
    {
      ValidatedPassFinal(i, entries, v);
    }
    AllOrNone(ValidatedIn(i, entries), i.final, Forced(i.gate) || i.final.inHours);
    hide ValidatedIn, PassesFinal, ApprovedFinal, RejectedFinal, RefusedIn, GatePassed, G.Rejected, EndsAfterRegime;
  }

  // ---- The driver ----

  const MOCK := "mock"
  const MARKET_PAPER := "market_paper"

  predicate KnownMode(mode: string) {
    mode == MOCK || mode == MARKET_PAPER
  }

  function NamespaceOf(mode: string): string {
    if mode == MOCK then "mock_simulated" else "paper_market_data"
  }

  datatype CycleError = UnknownMode | NamespaceMismatch | ForeignSignal

  /** Runs one cycle. An unknown mode, then a namespace of the other mode, then a candidate of another mode stops it
      before anything happens; otherwise the lists are those of `Cycle`, and the verdict cache moves on only when the
      cycle gets as far as validating. */
  method RunTradingCycle(cache: CandidateVerdictCache, i: Inputs, namespace: string)
    returns (result: Result<CycleResult, CycleError>)
    requires cache.Valid()
    modifies cache
    ensures cache.Valid()
    ensures result == Err(UnknownMode) <==> i.gate.mode != "mock" && i.gate.mode != "market_paper"
    ensures result == Err(NamespaceMismatch) <==>
      || (i.gate.mode == "mock" && namespace != "mock_simulated")
      || (i.gate.mode == "market_paper" && namespace != "paper_market_data")
    ensures result.Ok? <==>
      && ((i.gate.mode == "mock" && namespace == "mock_simulated")
          || (i.gate.mode == "market_paper" && namespace == "paper_market_data"))
      && forall s :: s in i.signals ==> s.declaredMode.None? || s.declaredMode.value == i.gate.mode
    ensures result.Ok? ==> result.value == Cycle(i, old(cache.entries))
    ensures cache.entries ==
      if result.Ok? && ReachesGraph(i) && !EndsAfterRegime(i) then NextEntries(BatchOf(i), old(cache.entries))
        else old(cache.entries)
  {
    if !KnownMode(i.gate.mode) {
      return Err(UnknownMode);
    }
    if namespace != NamespaceOf(i.gate.mode) {
      return Err(NamespaceMismatch);
    }
    if ForeignMode(i.signals, i.gate.mode) {
      return Err(ForeignSignal);
    }
    var value := RunGraph(cache, i);
    return Ok(value);
  }

  /** The cycle once nothing stands in its way. */
  method RunGraph(cache: CandidateVerdictCache, i: Inputs) returns (result: CycleResult)
    requires cache.Valid()
    modifies cache
    ensures cache.Valid() && result == Cycle(i, old(cache.entries))
    ensures cache.entries ==
      if ReachesGraph(i) && !EndsAfterRegime(i) then NextEntries(BatchOf(i), old(cache.entries)) else old(cache.entries)
  {
    hide Entered, KillSwitchOn, NextEntries, BatchOutcome, ApprovedFinal, RejectedFinal, Filter, G.Passed, G.Rejected,
      G.Funnel;
    var signals := Stamp(i.signals, i.gate.mode);
    assert signals == Entered(i) by { SignalsEnter(i); }
    if i.degraded {
      return CycleResult([], [], G.AllStopped(signals, SharedContext));
    }
    var first := G.FilterCandidates(signals, i.gate, i.spent);
    if first.passed == [] {
      return CycleResult([], [], first.rejected);
    }
    if EndsAfterRegime(i) {
      return CycleResult([], [], first.rejected);
    }
    var barred, reviewable := Filter(first.passed, Barred), Filter(first.passed, Reviewable);
    var validated, refused, misses, deferred := Validate(cache, Batch(reviewable, i.round, i.answer, i.reviewedAt));
    var approved, rejected := RiskComplianceNode(validated, i.final);
    return CycleResult(approved, barred + refused, first.rejected + rejected);
  }

  lemma SignalsEnter(i: Inputs)
    ensures Stamp(i.signals, i.gate.mode) == Entered(i)
  {
  }
}
