/** What an eligibility decision says, field by field, from the record on file and the query alone. */
module EligibilityDecisions {
  import opened Common
  import opened Eligibility

  // ---- Which record is selected ----

  /** The place of the record that leads those with these statuses in the grain: the first of the latest validated. */
  ghost predicate Leads(files: seq<Record>, grain: Identity, statuses: set<Status>, i: nat) {
    && i < |files| && Stands(files[i], grain, statuses)
    && forall j :: 0 <= j < |files| && Stands(files[j], grain, statuses) ==>
         files[j].validatedAt < files[i].validatedAt || (files[j].validatedAt == files[i].validatedAt && i <= j)
  }

  predicate Stands(r: Record, grain: Identity, statuses: set<Status>) {
    && r.identity.(modelVersion := "") == grain.(modelVersion := "")
    && r.status in statuses
  }

  const EVERY := {Unvalidated, Shadow, PaperApproved, LiveApproved, Disabled}

  /** The statuses that are approvals in an environment. Only PAPER and LIVE look for approvals. */
  function Approvals(env: Environment): set<Status> {
    match env
    case Live => {LiveApproved}
    case Paper => {PaperApproved, LiveApproved}
    case _ => {}
  }

  /** The place of the champion: the leading approval, where there is one to look for and no DISABLED record leads; the
      leader of the grain otherwise. */
  ghost predicate IsChampion(files: seq<Record>, grain: Identity, env: Environment, i: nat) {
    if exists n: nat :: Leads(files, grain, EVERY, n) && files[n].status.Disabled? then Leads(files, grain, EVERY, i)
    else if exists a: nat :: Leads(files, grain, Approvals(env), a) then Leads(files, grain, Approvals(env), i)
    else Leads(files, grain, EVERY, i)
  }

  function Standing(grain: Identity, statuses: set<Status>): Record -> bool {
    (r: Record) => Stands(r, grain, statuses)
  }

  lemma NewestOneMore(front: seq<Record>, last: Record, p: Record -> bool)
    ensures var before, now := Newest(Filter(front, p)), Newest(Filter(front + [last], p));
      now == if !p(last) || (before.Some? && last.validatedAt <= before.value.validatedAt) then before else Some(last)
  {
    assert (front + [last])[..|front|] == front;
    if p(last) {
      assert Filter(front + [last], p) == Filter(front, p) + [last];
      assert Filter(front + [last], p)[..|Filter(front + [last], p)| - 1] == Filter(front, p);
    }
  }

  lemma LeadsOneMore(front: seq<Record>, last: Record, grain: Identity, statuses: set<Status>, i: nat)
    requires Leads(front, grain, statuses, i)
    ensures Leads(front + [last], grain, statuses,
                  if Stands(last, grain, statuses) && front[i].validatedAt < last.validatedAt then |front| else i)
  {
    hide Stands;
  }

  lemma FirstToStand(front: seq<Record>, last: Record, grain: Identity, statuses: set<Status>)
    requires Stands(last, grain, statuses) && forall r :: r in front ==> !Stands(r, grain, statuses)
    ensures Leads(front + [last], grain, statuses, |front|)
  {
    hide Stands;
  }

  /** This record, if it is one, leads; if not, nobody stands. */
  ghost predicate Leader(files: seq<Record>, grain: Identity, statuses: set<Status>, best: Option<Record>) {
    match best
    case None => forall r :: r in files ==> !Stands(r, grain, statuses)
    case Some(r) => exists i: nat :: i < |files| && Leads(files, grain, statuses, i) && files[i] == r
  }

  lemma LeaderOneMore(front: seq<Record>, last: Record, grain: Identity, statuses: set<Status>, best: Option<Record>)
    requires Leader(front, grain, statuses, best)
    ensures Leader(front + [last], grain, statuses,
                   if !Stands(last, grain, statuses) || (best.Some? && last.validatedAt <= best.value.validatedAt)
                   then best else Some(last))
  {
    hide Stands, Leads;
    assert (front + [last])[|front|] == last;
    if best.Some? {
      var i: nat :| i < |front| && Leads(front, grain, statuses, i) && front[i] == best.value;
      LeadsOneMore(front, last, grain, statuses, i);
      assert (front + [last])[i] == front[i];
    } else if Stands(last, grain, statuses) {
      FirstToStand(front, last, grain, statuses);
    }
  }

  lemma {:induction false} NewestLeads(files: seq<Record>, grain: Identity, statuses: set<Status>)
    ensures Leader(files, grain, statuses, Newest(Filter(files, Standing(grain, statuses))))
  {
    if files != [] {
      hide Newest, Filter, Stands, Leads, Leader;
      var front, last := files[..|files| - 1], files[|files| - 1];
      assert files == front + [last];
      NewestLeads(front, grain, statuses);
      NewestOneMore(front, last, Standing(grain, statuses));
      LeaderOneMore(front, last, grain, statuses, Newest(Filter(front, Standing(grain, statuses))));
    }
  }

  lemma {:induction false} FilterTwice(files: seq<Record>, p: Record -> bool, q: Record -> bool, both: Record -> bool)
    requires forall r :: both(r) <==> p(r) && q(r)
    ensures Filter(Filter(files, p), q) == Filter(files, both)
  {
    if files != [] {
      var front, last := files[..|files| - 1], files[|files| - 1];
      FilterTwice(front, p, q, both);
      if p(last) {
        assert (Filter(front, p) + [last])[..|Filter(front, p)|] == Filter(front, p);
      }
    }
  }

  lemma EveryoneStands(files: seq<Record>, grain: Identity)
    ensures Filter(files, SameGrain(grain)) == Filter(files, Standing(grain, EVERY))
  {
    forall r: Record ensures SameGrain(grain)(r) <==> Standing(grain, EVERY)(r) {
      EveryStatus(r.status);
    }
    SameFilter(files, SameGrain(grain), Standing(grain, EVERY));
  }

  lemma ApprovedStand(files: seq<Record>, grain: Identity, env: Environment)
    requires env.Paper? || env.Live?
    ensures Filter(Filter(files, SameGrain(grain)), ApprovedFor(env)) == Filter(files, Standing(grain, Approvals(env)))
  {
    FilterTwice(files, SameGrain(grain), ApprovedFor(env), Standing(grain, Approvals(env)));
  }

  lemma EveryStatus(status: Status)
    ensures status in EVERY
  {
    match status
    case Unvalidated | Shadow | PaperApproved | LiveApproved | Disabled =>
  }

  lemma SelectShape(files: seq<Record>, grain: Identity, env: Environment)
    ensures var latest := Newest(Filter(files, Standing(grain, EVERY)));
      var champion := Newest(Filter(files, Standing(grain, Approvals(env))));
      SelectFor(files, grain, env) ==
        if latest.None? || latest.value.status.Disabled? || champion.None? then latest else champion
  {
    EveryoneStands(files, grain);
    if env.Paper? || env.Live? {
      ApprovedStand(files, grain, env);
    } else {
      FilterNone(files, Standing(grain, Approvals(env)));
    }
    hide Newest, Filter, SameGrain, ApprovedFor;
    assert Newest([]).None?;
  }

  lemma OneLeader(files: seq<Record>, grain: Identity, statuses: set<Status>, i: nat, j: nat)
    requires Leads(files, grain, statuses, i) && Leads(files, grain, statuses, j)
    ensures i == j
  {
    hide Stands;
  }

  lemma NobodyLeads(files: seq<Record>, grain: Identity, statuses: set<Status>)
    requires forall r :: r in files ==> !Stands(r, grain, statuses)
    ensures forall a: nat :: !Leads(files, grain, statuses, a)
  {
    hide Stands;
  }

  lemma LeaderWithout(files: seq<Record>, grain: Identity, env: Environment, i: nat)
    requires Leads(files, grain, EVERY, i)
    requires files[i].status.Disabled? || forall r :: r in files ==> !Stands(r, grain, Approvals(env))
    ensures IsChampion(files, grain, env, i)
  {
    if !files[i].status.Disabled? {
      NobodyLeads(files, grain, Approvals(env));
    }
    hide Leads;
  }

  lemma LeaderOverEnabled(files: seq<Record>, grain: Identity, env: Environment, i: nat, a: nat)
    requires Leads(files, grain, EVERY, i) && !files[i].status.Disabled?
    requires Leads(files, grain, Approvals(env), a)
    ensures IsChampion(files, grain, env, a)
  {
    forall n: nat | Leads(files, grain, EVERY, n) ensures n == i {
      OneLeader(files, grain, EVERY, n, i);
    }
    hide Leads;
  }

  /** Without a version asked for, the champion of the grain is selected, if the grain has any record. */
  lemma ChampionIsSelected(files: seq<Record>, grain: Identity, env: Environment)
    ensures var s := SelectFor(files, grain, env);
      && (s.None? ==> forall r :: r in files ==> !Stands(r, grain, EVERY))
      && (s.Some? ==> exists i: nat :: i < |files| && IsChampion(files, grain, env, i) && files[i] == s.value)
  {
    hide Stands, Leads, IsChampion, SelectFor, Newest, Filter, Standing, Approvals;
    SelectShape(files, grain, env);
    NewestLeads(files, grain, EVERY);
    NewestLeads(files, grain, Approvals(env));
    var latest := Newest(Filter(files, Standing(grain, EVERY)));
    var champion := Newest(Filter(files, Standing(grain, Approvals(env))));
    if latest.Some? {
      var i: nat :| i < |files| && Leads(files, grain, EVERY, i) && files[i] == latest.value;
      if latest.value.status.Disabled? || champion.None? {
        LeaderWithout(files, grain, env, i);
      } else {
        var a: nat :| a < |files| && Leads(files, grain, Approvals(env), a) && files[a] == champion.value;
        LeaderOverEnabled(files, grain, env, i, a);
      }
    }
  }

  /** There is one champion at most. */
  lemma OneChampion(files: seq<Record>, grain: Identity, env: Environment, i: nat, j: nat)
    requires IsChampion(files, grain, env, i) && IsChampion(files, grain, env, j)
    ensures i == j
  {
    hide Leads;
    if Leads(files, grain, EVERY, i) && Leads(files, grain, EVERY, j) {
      OneLeader(files, grain, EVERY, i, j);
    } else {
      OneLeader(files, grain, Approvals(env), i, j);
    }
  }

  // ---- What is decided ----

  predicate Trades(env: Environment) {
    env in {Paper, Live}
  }

  /** The version asked for is not on file, but the grain is. */
  ghost predicate Missing(files: seq<Record>, q: Query) {
    && q.grain.modelVersion != ""
    && (forall r :: r in files ==> r.identity != q.grain)
    && exists r :: r in files && Stands(r, q.grain, EVERY)
  }

  lemma MismatchedIff(files: seq<Record>, q: Query)
    ensures Mismatched(files, q) <==> Missing(files, q)
    ensures Mismatched(files, q) ==> Selected(files, q).None?
  {
    EveryoneStands(files, q.grain);
    NewestLeads(files, q.grain, EVERY);
    hide Newest, Filter;
    var latest := Latest(files, q.grain);
    if latest.Some? {
      var i: nat :| i < |files| && Leads(files, q.grain, EVERY, i) && files[i] == latest.value;
      assert files[i] in files;
    }
  }

  /** The registry lets a record, or the lack of one, through in an environment: it is not DISABLED, and the environment
      does not trade, or leaves the paper gate open, or finds an approval. A missing version never trades. */
  ghost predicate Admits(s: Option<Record>, missing: bool, env: Environment, paperGate: bool) {
    && (s.Some? ==> !s.value.status.Disabled?)
    && (Trades(env) ==>
          && !missing
          && ((env.Paper? && !paperGate) || (s.Some? && s.value.status in Approvals(env))))
  }

  /** The performance that governs the record in the regime reduces the confidence. */
  ghost predicate ReducesConfidence(r: Record, regime: Regime) {
    && !regime.Unknown? && !Disables(r, regime)
    && exists k :: Governs(k, r, regime) && r.performance[k].policy.ReduceConfidence?
  }

  lemma ReducedByFields(r: Record, regime: Regime)
    ensures EvaluateRegime(r, regime).policy.ReduceConfidence? <==> ReducesConfidence(r, regime)
  {
    KeysAreCompatible(regime);
    FirstPerformanceGoverns(r, regime);
    hide RegimeKeys, FirstPerformance, Governs, Compatible;
  }

  lemma StatusByFields(s: Option<Record>, missing: bool, q: Query, paperGate: bool)
    requires missing ==> s.None?
    ensures var d := Decide(s, missing, q, paperGate);
      && (d.registryAllowed <==> Admits(s, missing, q.environment, paperGate))
      && (d.recordOnly <==> !(Admits(s, missing, q.environment, paperGate) && Trades(q.environment)))
      && (d.executionAllowed <==> d.pipelineAllowed && Trades(q.environment))
      && (d.qwenAllowed <==> d.executionAllowed) && (d.shadowOnly <==> !d.executionAllowed)
      && d.environment == q.environment && d.regime == q.regime && d.record == s
      && d.status == (if s.Some? then s.value.status else Unvalidated)
      && d.grain == (if s.Some? then q.grain.(modelVersion := s.value.identity.modelVersion) else q.grain)
      && d.original == Clamp01(q.confidence) && d.adjusted == d.original * d.multiplier
  {
    hide EvaluateRegime, Clamp01;
  }

  lemma RegimeInDecision(s: Option<Record>, missing: bool, q: Query, paperGate: bool)
    ensures var d := Decide(s, missing, q, paperGate);
      var regime := if s.Some? then EvaluateRegime(s.value, q.regime) else RegimeDecision(Allow, 1.0, None);
      && d.policy == regime.policy && d.multiplier == regime.multiplier
      && (d.pipelineAllowed <==>
            d.registryAllowed && !d.policy.Block? && (s.Some? ==> d.adjusted >= s.value.minimumStrategyConfidence))
  {
    hide EvaluateRegime, Clamp01, StatusPolicy;
  }

  /** Everything a decision says but its reason, from the selected record and the query. */
  ghost predicate SaysSo(d: Decision, s: Option<Record>, missing: bool, q: Query, paperGate: bool) {
    && (d.registryAllowed <==> Admits(s, missing, q.environment, paperGate))
    && (d.pipelineAllowed <==> d.registryAllowed && (s.Some? ==> RegimeAdmits(s.value, q.regime, q.confidence)))
    && (d.executionAllowed <==> d.pipelineAllowed && Trades(q.environment))
    && (d.qwenAllowed <==> d.executionAllowed)
    && (d.shadowOnly <==> !d.executionAllowed)
    && (d.recordOnly <==> !(d.registryAllowed && Trades(q.environment)))
    && d.environment == q.environment && d.regime == q.regime && d.record == s
    && d.status == (if s.Some? then s.value.status else Unvalidated)
    && d.grain == (if s.Some? then q.grain.(modelVersion := s.value.identity.modelVersion) else q.grain)
    && d.original == Clamp01(q.confidence) && d.adjusted == d.original * d.multiplier
    && (s.None? ==> d.multiplier == 1.0 && d.policy.Allow?)
    && (s.Some? ==>
          && IsWeight(d.multiplier, s.value, q.regime)
          && (d.policy.Block? <==> BlocksRegime(s.value, q.regime))
          && (d.policy.ReduceConfidence? <==> ReducesConfidence(s.value, q.regime)))
  }

  lemma EvaluatedFromFields(files: seq<Record>, q: Query, paperGate: bool)
    ensures Evaluate(files, q, paperGate) == Decide(Selected(files, q), Missing(files, q), q, paperGate)
    ensures Missing(files, q) ==> Selected(files, q).None?
  {
    MismatchedIff(files, q);
    hide Missing, Mismatched, Selected, Decide;
  }

  lemma DecisionSays(s: Option<Record>, missing: bool, q: Query, paperGate: bool)
    requires missing ==> s.None?
    ensures SaysSo(Decide(s, missing, q, paperGate), s, missing, q, paperGate)
  {
    hide Decide, EvaluateRegime, BlocksRegime, IsWeight, ReducesConfidence, RegimeAdmits, Clamp01, Admits, Trades;
    StatusByFields(s, missing, q, paperGate);
    RegimeInDecision(s, missing, q, paperGate);
    if s.Some? {
      RegimeIsDecidedByFields(s.value, q.regime);
      ReducedByFields(s.value, q.regime);
      AdmittedByFields(s.value, q.regime, q.confidence);
    }
  }

  lemma DecisionOnFields(files: seq<Record>, q: Query, paperGate: bool)
    ensures SaysSo(Evaluate(files, q, paperGate), Selected(files, q), Missing(files, q), q, paperGate)
  {
    hide *;
    EvaluatedFromFields(files, q, paperGate);
    DecisionSays(Selected(files, q), Missing(files, q), q, paperGate);
  }

  // ---- Why ----

  /** What each reason stands for. */
  ghost predicate Cause(reason: Reason, d: Decision, s: Option<Record>, missing: bool, q: Query, paperGate: bool) {
    var known := s.Some? && !q.regime.Unknown?;
    match reason
    case StrategyDisabled => s.Some? && s.value.status.Disabled?
    case ModelVersionMismatch => missing
    case RegimeDisabled => d.registryAllowed && known && Disables(s.value, q.regime)
    case RegimeBlocked => d.registryAllowed && known && !Disables(s.value, q.regime)
                          && exists k :: Governs(k, s.value, q.regime) && s.value.performance[k].policy.Block?
    case RegimeNotAllowed => d.registryAllowed && known && !Disables(s.value, q.regime)
                             && !Governed(s.value, q.regime) && !Allows(s.value, q.regime)
    case BelowMinimum => d.registryAllowed && s.Some? && !BlocksRegime(s.value, q.regime)
                         && d.adjusted < s.value.minimumStrategyConfidence
    case ConfidenceReduced => d.pipelineAllowed && s.Some? && ReducesConfidence(s.value, q.regime)
    case StrategyEligible => d.pipelineAllowed && s.Some? && !ReducesConfidence(s.value, q.regime)
    case MissingForResearch => s.None? && !missing && q.environment in {Research, Backtest}
    case MissingForShadow => s.None? && !missing && q.environment in {Simulated, ShadowRun}
    case MissingGateDisabled => s.None? && !missing && q.environment.Paper? && !paperGate
    case RegistryMissing => s.None? && !missing && (q.environment.Live? || (q.environment.Paper? && paperGate))
    case NotPaperApproved => s.Some? && q.environment.Paper? && paperGate && s.value.status in {Unvalidated, Shadow}
    case NotLiveApproved => s.Some? && q.environment.Live? && s.value.status in {Unvalidated, Shadow, PaperApproved}
    case EligibleForResearch => false
    case EligibleForShadow => false
    case EligibleGateDisabled => false
  }

  lemma RegimeReasonByFields(r: Record, regime: Regime)
    ensures var reason := EvaluateRegime(r, regime).reason;
      && (reason == Some(RegimeDisabled) <==> !regime.Unknown? && Disables(r, regime))
      && (reason == Some(RegimeBlocked) <==>
            && !regime.Unknown? && !Disables(r, regime)
            && exists k :: Governs(k, r, regime) && r.performance[k].policy.Block?)
      && (reason == Some(RegimeNotAllowed) <==>
            !regime.Unknown? && !Disables(r, regime) && !Governed(r, regime) && !Allows(r, regime))
      && reason in {None, Some(RegimeDisabled), Some(RegimeBlocked), Some(RegimeNotAllowed)}
  {
    KeysAreCompatible(regime);
    FirstPerformanceGoverns(r, regime);
    hide RegimeKeys, FirstPerformance, Governs, Compatible;
  }

  /** The reason that counts when neither the regime nor the confidence objects. */
  function StatusReason(s: Option<Record>, missing: bool, q: Query, paperGate: bool): Reason {
    if s.Some? && s.value.status.Disabled? then StrategyDisabled
    else if missing then ModelVersionMismatch
    else StatusPolicy(if s.Some? then s.value.status else Unvalidated, q.environment, s.Some?, paperGate).reason
  }

  lemma ReasonShape(s: Option<Record>, missing: bool, q: Query, paperGate: bool)
    requires missing ==> s.None?
    ensures var d, why := Decide(s, missing, q, paperGate), StatusReason(s, missing, q, paperGate);
      d.reason ==
        if d.registryAllowed && s.Some? && d.policy.Block? then EvaluateRegime(s.value, q.regime).reason.value
        else if d.registryAllowed && s.Some? && d.adjusted < s.value.minimumStrategyConfidence then BelowMinimum
        else if d.pipelineAllowed && d.policy.ReduceConfidence? then ConfidenceReduced
        else if d.pipelineAllowed && s.Some? then StrategyEligible
        else why
  {
    hide EvaluateRegime, Clamp01;
    if s.Some? {
      RegimeIsDecidedByFields(s.value, q.regime);
    }
    hide BlocksRegime, IsWeight;
  }

  /** The reason a decision gives applies. */
  lemma ReasonApplies(s: Option<Record>, missing: bool, q: Query, paperGate: bool)
    requires missing ==> s.None?
    ensures var d := Decide(s, missing, q, paperGate); Cause(d.reason, d, s, missing, q, paperGate)
  {
    hide Decide, EvaluateRegime, Disables, Governs, Governed, Allows, RegimeAdmits, Clamp01, IsWeight;
    DecisionSays(s, missing, q, paperGate);
    ReasonShape(s, missing, q, paperGate);
    if s.Some? {
      RegimeReasonByFields(s.value, q.regime);
      RegimeInDecision(s, missing, q, paperGate);
      RegimeIsDecidedByFields(s.value, q.regime);
    }
    hide ReducesConfidence;
  }

  /** No two reasons apply to one decision. */
  lemma OneCause(d: Decision, s: Option<Record>, missing: bool, q: Query, paperGate: bool, one: Reason, other: Reason)
    requires SaysSo(d, s, missing, q, paperGate) && (missing ==> s.None?)
    requires Cause(one, d, s, missing, q, paperGate) && Cause(other, d, s, missing, q, paperGate)
    ensures one == other
  {
    hide Disables, Governs, Allows, RegimeAdmits, Clamp01, IsWeight, ReducesConfidence;
    if s.Some? && d.pipelineAllowed {
      AdmissionMeans(s.value, q.regime, q.confidence, d.multiplier);
    }
  }

  lemma AdmissionMeans(r: Record, regime: Regime, confidence: real, weight: real)
    requires RegimeAdmits(r, regime, confidence) && IsWeight(weight, r, regime)
    ensures !BlocksRegime(r, regime) && Clamp01(confidence) * weight >= r.minimumStrategyConfidence
  {
    hide IsWeight, BlocksRegime, Clamp01;
    var x :| IsWeight(x, r, regime) && Clamp01(confidence) * x >= r.minimumStrategyConfidence;
    WeightIsUnique(r, regime, weight, x);
  }

  /** The reason a decision gives is the one that applies, and no other does. */
  lemma ReasonNamesItsCause(files: seq<Record>, q: Query, paperGate: bool)
    ensures var d, s, missing := Evaluate(files, q, paperGate), Selected(files, q), Missing(files, q);
      forall reason :: d.reason == reason <==> Cause(reason, d, s, missing, q, paperGate)
  {
    hide *;
    var d, s, missing := Evaluate(files, q, paperGate), Selected(files, q), Missing(files, q);
    EvaluatedFromFields(files, q, paperGate);
    DecisionSays(s, missing, q, paperGate);
    ReasonApplies(s, missing, q, paperGate);
    forall reason | Cause(reason, d, s, missing, q, paperGate) ensures reason == d.reason {
      OneCause(d, s, missing, q, paperGate, reason, d.reason);
    }
  }
}
