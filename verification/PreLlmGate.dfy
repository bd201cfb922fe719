/** The deterministic gate in front of any review of a candidate. */
module PreLlmGate {
  import opened Common
  import opened VerdictCache
  import opened RiskCompliance
  import E = Eligibility

  predicate Actionable(entryState: string) {
    entryState == "" || entryState == "BUY" || entryState == "ENTER_NOW" || entryState == "APPROVE"
      || entryState == "APPROVED"
  }

  function Failed(rule: Rule): Check {
    Check(false, rule, true)
  }

  /** The candidate with its eligibility decision attached; its confidence becomes the adjusted one. */
  function Attached(s: Signal, d: E.Decision): Signal {
    Recorded(s, d).(confidence := d.adjusted)
  }

  /** How far a candidate gets: 0 stopped by MTF, 1 by entry state, 2 by eligibility, 3 shadow only, 4 by risk, 5
      passed. */
  function Level(s: Signal, w: World): nat {
    if s.mtfPassed == Some(false) then 0
    else if !Actionable(s.entryState) then 1
    else
      var d := Assess(s, w);
      if !d.pipelineAllowed then 2
      else if !d.qwenAllowed then 3
      else if Failures(RunRiskChecks(Attached(s, d), w, true)) != [] then 4
      else 5
  }

  /** The candidate as it passes the gate. */
  function ThroughGate(s: Signal, w: World): Signal {
    AfterChecks(Attached(s, Assess(s, w)), w, true)
  }

  /** The candidate as the gate rejects it, and why. */
  function StoppedAt(s: Signal, w: World): RiskRejection {
    var level := Level(s, w);
    if level == 0 then RiskRejection(s, [Failed(MtfConfirmation)])
    else if level == 1 then RiskRejection(s, [Failed(EntryQuality)])
    else if level == 2 then RiskRejection(Attached(s, Assess(s, w)), [Failed(StrategyEligibility)])
    else if level == 3 then RiskRejection(Attached(s, Assess(s, w)), [Failed(ShadowOnly)])
    else RiskRejection(ThroughGate(s, w), Failures(RunRiskChecks(Attached(s, Assess(s, w)), w, true)))
  }

  // ---- The gate on the fields ----

  /** The candidate with a decision written into it, field by field. */
  function WithDecision(s: Signal, d: E.Decision): Signal {
    s.(grain := d.grain, originalConfidence := Some(d.original), confidence := d.adjusted, decision := Some(d))
  }

  ghost predicate MeetsRules(s: Signal, w: World) {
    forall rule: Rule :: !rule.ModeIsolation? ==> Meets(rule, s, w)
  }

  const ENTRY_STATES := {"", "BUY", "ENTER_NOW", "APPROVE", "APPROVED"}

  /** A candidate passes exactly when its timeframes were not refuted, its entry state is an actionable or a missing
      one, its decision allows the pipeline and a review, and with that decision written into it it meets every risk
      rule. */
  lemma GateIff(s: Signal, w: World)
    ensures Level(s, w) == 5 <==>
      && s.mtfPassed != Some(false) && s.entryState in ENTRY_STATES
      && Assess(s, w).pipelineAllowed && Assess(s, w).qwenAllowed
      && MeetsRules(WithDecision(s, Assess(s, w)), w)
  {
    hide Assess, RunRiskChecks, Failures, Meets;
    RulesPassIff(Attached(s, Assess(s, w)), w);
    AttachedIs(s, Assess(s, w));
    hide MeetsRules, WithDecision, Attached;
    RulesHold(Attached(s, Assess(s, w)), w);
  }

  lemma RulesHold(s: Signal, w: World)
    ensures MeetsRules(s, w) <==> Failures(RunRiskChecks(s, w, true)) == []
  {
    hide Meets, RunRiskChecks, Failures;
    RulesPassIff(s, w);
  }

  lemma AttachedIs(s: Signal, d: E.Decision)
    ensures Attached(s, d) == WithDecision(s, d)
  {
  }

  /** What passes carries its decision and the adjusted confidence, and is otherwise what came in. */
  lemma PassesWithDecision(s: Signal, w: World)
    requires E.OnePerIdentity(w.files)
    ensures ThroughGate(s, w) == WithDecision(s, Assess(s, w))
  {
    SameDecisionAgain(s, w);
    var d := Assess(s, w);
    assert QueryOf(Attached(s, d), w) == QueryOf(Recorded(s, d), w);
    hide E.Evaluate;
  }

  /** A candidate that is stopped is given the one stage that stopped it: MTF, entry state, eligibility, shadow; or,
      past those, exactly the risk rules it does not meet. */
  lemma StopsNameTheirRules(s: Signal, w: World)
    requires Level(s, w) != 5
    ensures var d, stopped := Assess(s, w), StoppedAt(s, w).failures;
      if s.mtfPassed == Some(false) then stopped == [Check(false, MtfConfirmation, true)]
      else if s.entryState !in ENTRY_STATES then stopped == [Check(false, EntryQuality, true)]
      else if !d.pipelineAllowed then stopped == [Check(false, StrategyEligibility, true)]
      else if !d.qwenAllowed then stopped == [Check(false, ShadowOnly, true)]
      else forall rule :: NamedIn(stopped, rule) <==> !rule.ModeIsolation? && !Meets(rule, WithDecision(s, d), w)
    ensures StoppedAt(s, w).signal == s || StoppedAt(s, w).signal.decision.Some?
  {
    hide Assess, RunRiskChecks, Failures, Meets;
    var d := Assess(s, w);
    AttachedIs(s, d);
    RuleFailuresNameTheirRules(Attached(s, d), w);
    hide Attached, WithDecision;
    StopOf(s, w);
    hide StoppedAt, Level;
  }

  predicate NamedIn(failures: seq<Check>, rule: Rule) {
    exists c :: c in failures && c.rule == rule
  }

  lemma StopOf(s: Signal, w: World)
    requires Level(s, w) != 5
    ensures var d, stop := Assess(s, w), StoppedAt(s, w);
      if s.mtfPassed == Some(false) then stop == RiskRejection(s, [Check(false, MtfConfirmation, true)])
      else if s.entryState !in ENTRY_STATES then stop == RiskRejection(s, [Check(false, EntryQuality, true)])
      else if !d.pipelineAllowed then stop == RiskRejection(Attached(s, d), [Check(false, StrategyEligibility, true)])
      else if !d.qwenAllowed then stop == RiskRejection(Attached(s, d), [Check(false, ShadowOnly, true)])
      else stop.failures == Failures(RunRiskChecks(Attached(s, d), w, true)) && stop.signal == ThroughGate(s, w)
    ensures Attached(s, Assess(s, w)).decision.Some? && ThroughGate(s, w).decision.Some?
  {
    hide Assess, RunRiskChecks, Failures;
  }

  function Reaches(w: World, level: nat): Signal -> bool {
    (s: Signal) => Level(s, w) >= level
  }

  function Reduced(w: World): Signal -> bool {
    (s: Signal) => Level(s, w) >= 3 && Assess(s, w).multiplier < 1.0
  }

  function PassedGate(signals: seq<Signal>, w: World): seq<Signal> {
    if signals == [] then []
    else
      var last := signals[|signals| - 1];
      PassedGate(signals[..|signals| - 1], w) + if Level(last, w) == 5 then [ThroughGate(last, w)] else []
  }

  function RejectedGate(signals: seq<Signal>, w: World): seq<RiskRejection> {
    if signals == [] then []
    else
      var last := signals[|signals| - 1];
      RejectedGate(signals[..|signals| - 1], w) + if Level(last, w) == 5 then [] else [StoppedAt(last, w)]
  }

  function AllStopped(signals: seq<Signal>, rule: Rule): (r: seq<RiskRejection>)
    ensures |r| == |signals|
  {
    if signals == [] then []
    else AllStopped(signals[..|signals| - 1], rule) + [RiskRejection(signals[|signals| - 1], [Failed(rule)])]
  }

  /** What the gate passes and rejects. An active kill switch, then an exhausted budget, stop the whole batch. */
  function Passed(signals: seq<Signal>, w: World, spent: bool): seq<Signal> {
    if KillSwitchOn(w) || spent then [] else PassedGate(signals, w)
  }

  function Rejected(signals: seq<Signal>, w: World, spent: bool): seq<RiskRejection> {
    if KillSwitchOn(w) then AllStopped(signals, KillSwitch)
    else if spent then AllStopped(signals, HardBudget)
    else RejectedGate(signals, w)
  }

  // ---- Counters ----

  function OfRule(rule: Rule): Check -> bool {
    (c: Check) => c.rule == rule
  }

  /** How often a rule occurs among the recorded failures. */
  function Occurrences(rejected: seq<RiskRejection>, rule: Rule): nat {
    if rejected == [] then 0
    else
      Occurrences(rejected[..|rejected| - 1], rule) + |Filter(rejected[|rejected| - 1].failures, OfRule(rule))|
  }

  function Held(counts: map<Rule, nat>, rule: Rule): nat {
    if rule in counts then counts[rule] else 0
  }

  datatype Stages = Stages(mtf: nat, entry: nat, regime: nat, registry: nat, reduced: nat, shadow: nat, risk: nat)

  function StoppedInShadow(w: World): Signal -> bool {
    (s: Signal) => Level(s, w) == 3
  }

  /** The funnel as it should be counted. */
  function Funnel(signals: seq<Signal>, w: World): Stages {
    Stages(|Filter(signals, Reaches(w, 1))|, |Filter(signals, Reaches(w, 2))|, |Filter(signals, Reaches(w, 3))|,
           |Filter(signals, Reaches(w, 3))|, |Filter(signals, Reduced(w))|,
           |Filter(signals, StoppedInShadow(w))|, |Filter(signals, Reaches(w, 5))|)
  }

  function One(b: bool): nat {
    if b then 1 else 0
  }

  function Advance(t: Stages, s: Signal, w: World): Stages {
    var level := Level(s, w);
    Stages(t.mtf + One(level >= 1), t.entry + One(level >= 2), t.regime + One(level >= 3), t.registry + One(level >= 3),
           t.reduced + One(Reduced(w)(s)), t.shadow + One(level == 3), t.risk + One(level == 5))
  }

  lemma FunnelStep(signals: seq<Signal>, s: Signal, w: World)
    ensures Funnel(signals + [s], w) == Advance(Funnel(signals, w), s, w)
  {
    assert (signals + [s])[..|signals|] == signals;
    hide Level, Assess;
  }

  lemma EachPassesOrIsStopped(signals: seq<Signal>, s: Signal, w: World)
    ensures PassedGate(signals + [s], w) ==
      PassedGate(signals, w) + if Level(s, w) == 5 then [ThroughGate(s, w)] else []
    ensures RejectedGate(signals + [s], w) ==
      RejectedGate(signals, w) + if Level(s, w) == 5 then [] else [StoppedAt(s, w)]
  {
    assert (signals + [s])[..|signals|] == signals;
    hide Level, ThroughGate, StoppedAt;
  }

  /** The funnel only narrows, and its last stage and the shadow stage account for everything that got that far. */
  lemma {:induction false} FunnelNarrows(signals: seq<Signal>, w: World)
    ensures var f := Funnel(signals, w);
      && |signals| >= f.mtf >= f.entry >= f.regime == f.registry >= f.shadow + f.risk
      && f.registry >= f.reduced
      && f.risk == |PassedGate(signals, w)|
      && |PassedGate(signals, w)| + |RejectedGate(signals, w)| == |signals|
  {
    hide Level, Funnel, PassedGate, RejectedGate, Assess;
    if signals == [] {
      NothingCounted(w);
    } else {
      var front, last := signals[..|signals| - 1], signals[|signals| - 1];
      assert signals == front + [last];
      FunnelNarrows(front, w);
      FunnelStep(front, last, w);
      EachPassesOrIsStopped(front, last, w);
    }
  }

  lemma NothingCounted(w: World)
    ensures Funnel([], w) == Stages(0, 0, 0, 0, 0, 0, 0) && PassedGate([], w) == [] && RejectedGate([], w) == []
  {
  }

  class PreLlmGateResult {
    var passed: seq<Signal>
    var rejected: seq<RiskRejection>
    var counts: map<Rule, nat>
    var stages: Stages

    /** Every rejection is counted under each of its rules. */
    ghost predicate Valid()
      reads this
    {
      forall rule :: Held(counts, rule) == Occurrences(rejected, rule)
    }

    constructor ()
      ensures Valid() && passed == [] && rejected == [] && stages == Stages(0, 0, 0, 0, 0, 0, 0)
    {
      passed, rejected, counts, stages := [], [], map[], Stages(0, 0, 0, 0, 0, 0, 0);
    }

    /** Records a rejection; a candidate may break several rules at once. */
    method Record(r: RiskRejection)
      requires Valid()
      modifies `rejected, `counts
      ensures Valid() && rejected == old(rejected) + [r]
    {
      ghost var before := rejected;
      rejected := rejected + [r];
      assert rejected[..|before|] == before;
      for i := 0 to |r.failures|
        invariant rejected == before + [r]
        invariant forall rule ::
          Held(counts, rule) == Occurrences(before, rule) + |Filter(r.failures[..i], OfRule(rule))|
      {
        assert r.failures[..i + 1][..i] == r.failures[..i];
        var rule := r.failures[i].rule;
        counts := counts[rule := Held(counts, rule) + 1];
      }
      assert r.failures[..|r.failures|] == r.failures;
    }

    method RejectAll(signals: seq<Signal>, rule: Rule)
      requires Valid() && rejected == []
      modifies `rejected, `counts
      ensures Valid() && rejected == AllStopped(signals, rule)
    {
      for i := 0 to |signals|
        invariant Valid() && rejected == AllStopped(signals[..i], rule)
      {
        assert signals[..i + 1][..i] == signals[..i];
        Record(RiskRejection(signals[i], [Failed(rule)]));
      }
      assert signals[..|signals|] == signals;
    }

    /** One candidate through the stages of the gate. */
    method Consider(s: Signal, w: World)
      requires Valid()
      modifies this
      ensures Valid() && stages == Advance(old(stages), s, w)
      ensures passed == old(passed) + if Level(s, w) == 5 then [ThroughGate(s, w)] else []
      ensures rejected == old(rejected) + if Level(s, w) == 5 then [] else [StoppedAt(s, w)]
    {
      hide Assess, RunRiskChecks, AfterChecks, Attached, Failures, Occurrences;
      if s.mtfPassed == Some(false) {
        Record(RiskRejection(s, [Failed(MtfConfirmation)]));
        return;
      }
      stages := stages.(mtf := stages.mtf + 1);
      if !Actionable(s.entryState) {
        Record(RiskRejection(s, [Failed(EntryQuality)]));
        return;
      }
      stages := stages.(entry := stages.entry + 1);
      var decision := Assess(s, w);
      var signal := Attached(s, decision);
      if !decision.pipelineAllowed {
        Record(RiskRejection(signal, [Failed(StrategyEligibility)]));
        return;
      }
      stages := stages.(regime := stages.regime + 1, registry := stages.registry + 1);
      if decision.multiplier < 1.0 {
        stages := stages.(reduced := stages.reduced + 1);
      }
      if !decision.qwenAllowed {
        stages := stages.(shadow := stages.shadow + 1);
        Record(RiskRejection(signal, [Failed(ShadowOnly)]));
        return;
      }
      var blocking := Failures(RunRiskChecks(signal, w, true));
      signal := AfterChecks(signal, w, true);
      if blocking != [] {
        Record(RiskRejection(signal, blocking));
        return;
      }
      passed := passed + [signal];
      stages := stages.(risk := stages.risk + 1);
    }
  }

  /** The gate: what it passes, what it rejects and why, every failed rule counted, every stage counted. */
  method FilterCandidates(signals: seq<Signal>, w: World, spent: bool) returns (result: PreLlmGateResult)
    ensures fresh(result) && result.Valid()
    ensures result.passed == Passed(signals, w, spent) && result.rejected == Rejected(signals, w, spent)
    ensures !KillSwitchOn(w) && !spent ==> result.stages == Funnel(signals, w)
  {
    hide *;
    result := new PreLlmGateResult();
    NothingCounted(w);
    GateOutcome(signals, w, spent);
    if signals == [] {
      return;
    }
    if KillSwitchOn(w) {
      result.RejectAll(signals, KillSwitch);
      return;
    }
    if spent {
      result.RejectAll(signals, HardBudget);
      return;
    }
    for i := 0 to |signals|
      invariant fresh(result) && result.Valid()
      invariant result.passed == PassedGate(signals[..i], w) && result.rejected == RejectedGate(signals[..i], w)
      invariant result.stages == Funnel(signals[..i], w)
    {
      assert signals[..i + 1] == signals[..i] + [signals[i]];
      FunnelStep(signals[..i], signals[i], w);
      EachPassesOrIsStopped(signals[..i], signals[i], w);
      result.Consider(signals[i], w);
    }
    assert signals[..|signals|] == signals;
  }

  lemma GateOutcome(signals: seq<Signal>, w: World, spent: bool)
    ensures KillSwitchOn(w) ==>
      Passed(signals, w, spent) == [] && Rejected(signals, w, spent) == AllStopped(signals, KillSwitch)
    ensures !KillSwitchOn(w) && spent ==>
      Passed(signals, w, spent) == [] && Rejected(signals, w, spent) == AllStopped(signals, HardBudget)
    ensures !KillSwitchOn(w) && !spent ==>
      Passed(signals, w, spent) == PassedGate(signals, w) && Rejected(signals, w, spent) == RejectedGate(signals, w)
    ensures signals == [] ==> Passed(signals, w, spent) == [] && Rejected(signals, w, spent) == []
  {
    hide KillSwitchOn, Level;
  }
}
