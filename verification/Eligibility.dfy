/** The versioned eligibility records, champion selection, and the status and regime policy. */
module Eligibility {
  import opened Common

  datatype Status = Unvalidated | Shadow | PaperApproved | LiveApproved | Disabled

  datatype Policy = Allow | ReduceConfidence | Block

  datatype Environment = Research | Backtest | Simulated | ShadowRun | Paper | Live

  /** Normalised regime labels. `Unknown` stands for the empty, "unknown" and "none" labels. */
  datatype Regime = Unknown | Trending | TrendingUp | TrendingDown | Volatile | HighVolatility | Named(text: string)

  /** The label itself, then the labels compatible with it. */
  function RegimeKeys(r: Regime): seq<Regime> {
    match r
    case TrendingUp => [TrendingUp, Trending]
    case TrendingDown => [TrendingDown, Trending]
    case Volatile => [Volatile, HighVolatility]
    case HighVolatility => [HighVolatility, Volatile]
    case _ => [r]
  }

  datatype PerformanceData = PerformanceData(policy: Policy, multiplier: real)

  /** A regime performance as its constructor accepts it. */
  type Performance = p: PerformanceData |
      && 0.0 <= p.multiplier <= 1.0
      && (p.policy.ReduceConfidence? ==> 0.0 < p.multiplier < 1.0)
      && (p.policy.Block? ==> p.multiplier == 0.0)
    witness PerformanceData(Allow, 1.0)

  /** Normalised market, strategy, timeframe and model version: what a record is filed under. */
  datatype Identity = Identity(market: string, strategy: string, timeframe: string, modelVersion: string)

  datatype RecordData = RecordData(
    identity: Identity, status: Status, validatedAt: int,
    minimumModelConfidence: real, minimumStrategyConfidence: real,
    allowedRegimes: set<Regime>, disabledRegimes: set<Regime>, performance: map<Regime, Performance>,
    artifact: Option<string>, requiresMl: bool,
    migration: Option<int>)  // the migration version, when a legacy migration wrote the record

  /** A record as its constructor accepts it. */
  type Record = r: RecordData |
      && r.identity.strategy != "" && r.identity.timeframe != "" && r.identity.modelVersion != ""
      && 0.0 <= r.minimumModelConfidence <= 1.0
      && 0.0 <= r.minimumStrategyConfidence <= 1.0
    witness RecordData(Identity("NSE", "s", "5m", "1"), Unvalidated, 0, 0.0, 0.0, {}, {}, map[], None, false, None)

  // ---- The directory of records ----

  /** One file per identity, in the order the directory lists them. */
  ghost predicate OnePerIdentity(files: seq<Record>) {
    forall i, j :: 0 <= i < j < |files| ==> files[i].identity != files[j].identity
  }

  function IndexOf(files: seq<Record>, id: Identity): (at: Option<nat>)
    ensures at.Some? ==> at.value < |files| && files[at.value].identity == id
    ensures at.None? ==> forall i :: 0 <= i < |files| ==> files[i].identity != id
  {
    if files == [] then None
    else if files[|files| - 1].identity == id then Some(|files| - 1)
    else IndexOf(files[..|files| - 1], id)
  }

  /** Writing a record replaces the file of its identity, or adds one; where a new file lands in the listing
      is not decided here. */
  function Put(files: seq<Record>, r: Record, slot: nat): seq<Record> {
    match IndexOf(files, r.identity)
    case Some(i) => files[i := r]
    case None =>
      var at := if slot <= |files| then slot else |files|;
      files[..at] + [r] + files[at..]
  }

  /** The first of the records with the latest validation time, as `max` by that key returns it. */
  function Newest(rs: seq<Record>): (best: Option<Record>)
    ensures best.None? <==> rs == []
    ensures best.Some? ==> best.value in rs && forall r :: r in rs ==> r.validatedAt <= best.value.validatedAt
  {
    if rs == [] then None
    else
      var front, last := rs[..|rs| - 1], rs[|rs| - 1];
      assert rs == front + [last];
      match Newest(front)
      case None => Some(last)
      case Some(b) => if last.validatedAt > b.validatedAt then Some(last) else Some(b)
  }

  function SameIdentity(id: Identity): Record -> bool {
    (r: Record) => r.identity == id
  }

  function SameGrain(id: Identity): Record -> bool {
    (r: Record) => r.identity.market == id.market && r.identity.strategy == id.strategy
      && r.identity.timeframe == id.timeframe
  }

  function ApprovedFor(env: Environment): Record -> bool {
    (r: Record) => r.status.LiveApproved? || (env.Paper? && r.status.PaperApproved?)
  }

  function Get(files: seq<Record>, id: Identity): (r: Option<Record>)
    ensures r.Some? ==> r.value in files && r.value.identity == id
    ensures r.None? ==> forall f :: f in files ==> f.identity != id
  {
    FilterMembers(files, SameIdentity(id));
    Newest(Filter(files, SameIdentity(id)))
  }

  function Latest(files: seq<Record>, grain: Identity): Option<Record> {
    Newest(Filter(files, SameGrain(grain)))
  }

  /** The champion of a grain: the newest approved record, unless the newest of all is DISABLED or none is approved. */
  function SelectFor(files: seq<Record>, grain: Identity, env: Environment): Option<Record> {
    SelectAmong(Filter(files, SameGrain(grain)), env)
  }

  function SelectAmong(matching: seq<Record>, env: Environment): Option<Record> {
    match Newest(matching)
    case None => None
    case Some(latest) =>
      if latest.status.Disabled? || !(env.Live? || env.Paper?) then Some(latest)
      else
        match Newest(Filter(matching, ApprovedFor(env)))
        case Some(champion) => Some(champion)
        case None => Some(latest)
  }

  // ---- Policy ----

  datatype Reason =
    | MissingForResearch | EligibleForResearch | MissingForShadow | EligibleForShadow
    | MissingGateDisabled | EligibleGateDisabled | RegistryMissing | StrategyEligible
    | NotPaperApproved | NotLiveApproved | ModelVersionMismatch | StrategyDisabled
    | RegimeDisabled | RegimeBlocked | RegimeNotAllowed | BelowMinimum | ConfidenceReduced

  datatype StatusDecision = StatusDecision(allowed: bool, execution: bool, recordOnly: bool, reason: Reason)

  function StatusPolicy(status: Status, env: Environment, exists_: bool, paperGate: bool): StatusDecision {
    if env.Research? || env.Backtest? then
      StatusDecision(true, false, true, if exists_ then EligibleForResearch else MissingForResearch)
    else if env.Simulated? || env.ShadowRun? then
      StatusDecision(true, false, true, if exists_ then EligibleForShadow else MissingForShadow)
    else if env.Paper? && !paperGate then
      StatusDecision(true, true, false, if exists_ then EligibleGateDisabled else MissingGateDisabled)
    else if !exists_ then
      StatusDecision(false, false, true, RegistryMissing)
    else
      var allowed := status.LiveApproved? || (env.Paper? && status.PaperApproved?);
      StatusDecision(allowed, allowed, !allowed,
                     if allowed then StrategyEligible else if env.Paper? then NotPaperApproved else NotLiveApproved)
  }

  datatype RegimeDecision = RegimeDecision(policy: Policy, multiplier: real, reason: Option<Reason>)

  function FirstPerformance(performance: map<Regime, Performance>, keys: seq<Regime>): Option<Performance> {
    if keys == [] then None
    else if keys[0] in performance then Some(performance[keys[0]])
    else FirstPerformance(performance, keys[1..])
  }

  function EvaluateRegime(r: Record, regime: Regime): RegimeDecision {
    var keys := RegimeKeys(regime);
    if regime.Unknown? then RegimeDecision(Allow, 1.0, None)
    else if exists k :: k in keys && k in r.disabledRegimes then RegimeDecision(Block, 0.0, Some(RegimeDisabled))
    else
      match FirstPerformance(r.performance, keys)
      case Some(p) => RegimeDecision(p.policy, p.multiplier, if p.policy.Block? then Some(RegimeBlocked) else None)
      case None =>
        if r.allowedRegimes != {} && !(exists k :: k in keys && k in r.allowedRegimes)
        then RegimeDecision(Block, 0.0, Some(RegimeNotAllowed))
        else RegimeDecision(Allow, 1.0, None)
  }

  /** `modelVersion` is empty when the caller leaves the choice to champion selection. */
  datatype Query = Query(grain: Identity, environment: Environment, regime: Regime, confidence: real)

  datatype Decision = Decision(
    grain: Identity, status: Status, environment: Environment, regime: Regime, policy: Policy,
    original: real, adjusted: real, multiplier: real,
    registryAllowed: bool, pipelineAllowed: bool, qwenAllowed: bool, executionAllowed: bool,
    shadowOnly: bool, recordOnly: bool, reason: Reason, record: Option<Record>)

  function Selected(files: seq<Record>, q: Query): Option<Record> {
    if q.grain.modelVersion != "" then Get(files, q.grain) else SelectFor(files, q.grain, q.environment)
  }

  /** An exact version was asked for, is not filed, and its grain is. */
  predicate Mismatched(files: seq<Record>, q: Query) {
    q.grain.modelVersion != "" && Selected(files, q).None? && Latest(files, q.grain).Some?
  }

  function Evaluate(files: seq<Record>, q: Query, paperGate: bool): Decision {
    Decide(Selected(files, q), Mismatched(files, q), q, paperGate)
  }

  function Decide(selected: Option<Record>, mismatch: bool, q: Query, paperGate: bool): Decision {
    var status := if selected.Some? then selected.value.status else Unvalidated;
    var original := Clamp01(q.confidence);
    var byStatus := StatusPolicy(status, q.environment, selected.Some?, paperGate);
    var gated :=
      if !mismatch then byStatus
      else if q.environment.Paper? || q.environment.Live? then StatusDecision(false, false, true, ModelVersionMismatch)
      else byStatus.(reason := ModelVersionMismatch);
    var final := if status.Disabled? then StatusDecision(false, false, true, StrategyDisabled) else gated;
    var byRegime := if selected.Some? then EvaluateRegime(selected.value, q.regime)
      else RegimeDecision(Allow, 1.0, None);
    var adjusted := original * byRegime.multiplier;
    var confident := selected.None? || adjusted >= selected.value.minimumStrategyConfidence;
    var pipeline := final.allowed && !byRegime.policy.Block? && confident;
    var reason :=
      if final.allowed && byRegime.policy.Block? then byRegime.reason.value
      else if final.allowed && !confident then BelowMinimum
      else if pipeline && byRegime.policy.ReduceConfidence? then ConfidenceReduced
      else if pipeline && (final.reason.MissingForResearch? || final.reason.MissingForShadow?
                           || final.reason.MissingGateDisabled?
                           || final.reason.ModelVersionMismatch?) then final.reason
      else if pipeline then StrategyEligible
      else final.reason;
    Decision(
      if selected.Some? then q.grain.(modelVersion := selected.value.identity.modelVersion) else q.grain,
      status, q.environment, q.regime, byRegime.policy, original, adjusted, byRegime.multiplier,
      final.allowed, pipeline, pipeline && final.execution, final.execution && pipeline,
      !(final.execution && pipeline), final.recordOnly || !final.execution, reason, selected)
  }

  // ---- Execution rights ----

  /** Labels that speak for a regime: its own, the undirected trend for a directed one, and either name of volatility
      for the other. */
  predicate Compatible(k: Regime, regime: Regime) {
    || k == regime
    || (k.Trending? && (regime.TrendingUp? || regime.TrendingDown?))
    || (k.Volatile? && regime.HighVolatility?)
    || (k.HighVolatility? && regime.Volatile?)
  }

  /** The performance under this label decides: the regime's own label goes first. */
  predicate Governs(k: Regime, r: Record, regime: Regime) {
    k in r.performance && Compatible(k, regime) && (k == regime || regime !in r.performance)
  }

  ghost predicate Disables(r: Record, regime: Regime) {
    exists k :: Compatible(k, regime) && k in r.disabledRegimes
  }

  ghost predicate Allows(r: Record, regime: Regime) {
    r.allowedRegimes == {} || exists k :: Compatible(k, regime) && k in r.allowedRegimes
  }

  ghost predicate Governed(r: Record, regime: Regime) {
    exists k :: Governs(k, r, regime)
  }

  /** A record blocks a known regime when it disables it; or else when the performance that governs it says so; or, none
      governing it, when it allows others only. */
  ghost predicate BlocksRegime(r: Record, regime: Regime) {
    && !regime.Unknown?
    && (|| Disables(r, regime)
        || (exists k :: Governs(k, r, regime) && r.performance[k].policy.Block?)
        || (!Governed(r, regime) && !Allows(r, regime)))
  }

  /** The share of its confidence a candidate keeps. */
  ghost predicate IsWeight(weight: real, r: Record, regime: Regime) {
    if regime.Unknown? then weight == 1.0
    else if Disables(r, regime) then weight == 0.0
    else if Governed(r, regime) then exists k :: Governs(k, r, regime) && weight == r.performance[k].multiplier
    else weight == if Allows(r, regime) then 1.0 else 0.0
  }

  lemma KeysAreCompatible(regime: Regime)
    ensures forall k :: k in RegimeKeys(regime) <==> Compatible(k, regime)
    ensures RegimeKeys(regime)[0] == regime && |RegimeKeys(regime)| <= 2
  {
    var keys := RegimeKeys(regime);
    assert forall k :: k in keys <==> k == keys[0] || k == keys[|keys| - 1];
  }

  lemma FirstPerformanceGoverns(r: Record, regime: Regime)
    ensures var p := FirstPerformance(r.performance, RegimeKeys(regime));
      && (p.Some? <==> Governed(r, regime))
      && (p.Some? ==> exists k :: Governs(k, r, regime) && r.performance[k] == p.value)
      && (forall k :: Governs(k, r, regime) ==> p == Some(r.performance[k]))
  {
    var keys := RegimeKeys(regime);
    KeysAreCompatible(regime);
    FirstOfTwo(r.performance, keys);
    hide RegimeKeys, FirstPerformance, Compatible;
    if FirstPerformance(r.performance, keys).Some? {
      var k := if keys[0] in r.performance then keys[0] else keys[1];
      assert Governs(k, r, regime);
    }
    forall k | Governs(k, r, regime) ensures FirstPerformance(r.performance, keys) == Some(r.performance[k]) {
      assert k in keys;
    }
  }

  lemma FirstOfTwo(performance: map<Regime, Performance>, keys: seq<Regime>)
    requires 1 <= |keys| <= 2
    ensures FirstPerformance(performance, keys) ==
      if keys[0] in performance then Some(performance[keys[0]])
      else if |keys| == 2 && keys[1] in performance then Some(performance[keys[1]])
      else None
  {
    assert |keys| == 2 ==> keys[1..][1..] == [];
    assert |keys| == 1 ==> keys[1..] == [];
  }

  /** What a record says about a regime, from its own fields. */
  lemma RegimeIsDecidedByFields(r: Record, regime: Regime)
    ensures var d := EvaluateRegime(r, regime);
      && (d.policy.Block? <==> BlocksRegime(r, regime))
      && IsWeight(d.multiplier, r, regime)
      && (d.policy.Block? <==> d.reason.Some?)
  {
    KeysAreCompatible(regime);
    FirstPerformanceGoverns(r, regime);
    hide RegimeKeys, FirstPerformance, Governs, Compatible;
  }

  /** The record does not block the regime and its minimum lets the weighted confidence through. */
  ghost predicate RegimeAdmits(r: Record, regime: Regime, confidence: real) {
    && !BlocksRegime(r, regime)
    && exists weight :: IsWeight(weight, r, regime) && Clamp01(confidence) * weight >= r.minimumStrategyConfidence
  }

  /** A record grants live execution in a regime at a confidence. */
  ghost predicate GrantsLive(r: Record, regime: Regime, confidence: real) {
    r.status.LiveApproved? && RegimeAdmits(r, regime, confidence)
  }

  lemma WeightIsUnique(r: Record, regime: Regime, x: real, y: real)
    requires IsWeight(x, r, regime) && IsWeight(y, r, regime)
    ensures x == y
  {
    FirstPerformanceGoverns(r, regime);
    hide FirstPerformance, RegimeKeys, Governs;
  }

  lemma AdmittedByFields(r: Record, regime: Regime, confidence: real)
    ensures RegimeAdmits(r, regime, confidence) <==>
      && !EvaluateRegime(r, regime).policy.Block?
      && Clamp01(confidence) * EvaluateRegime(r, regime).multiplier >= r.minimumStrategyConfidence
  {
    hide EvaluateRegime, IsWeight, BlocksRegime, Clamp01;
    RegimeIsDecidedByFields(r, regime);
    if RegimeAdmits(r, regime, confidence) {
      var weight :| IsWeight(weight, r, regime) && Clamp01(confidence) * weight >= r.minimumStrategyConfidence;
      WeightIsUnique(r, regime, weight, EvaluateRegime(r, regime).multiplier);
    }
  }

  /** LIVE execution is allowed exactly when the selected record is LIVE_APPROVED, its regime is not blocked and the
      adjusted confidence reaches its minimum; the paper gate has no part in any LIVE decision. */
  lemma LiveExecutionIff(files: seq<Record>, q: Query, paperGate: bool)
    requires q.environment.Live?
    ensures Evaluate(files, q, paperGate).executionAllowed <==>
      Selected(files, q).Some? && GrantsLive(Selected(files, q).value, q.regime, q.confidence)
    ensures Evaluate(files, q, paperGate) == Evaluate(files, q, !paperGate)
  {
    hide EvaluateRegime, Clamp01, Selected, Latest, RegimeAdmits;
    if Selected(files, q).Some? {
      AdmittedByFields(Selected(files, q).value, q.regime, q.confidence);
    }
  }

  /** PAPER execution behind the paper gate needs a selected record that is approved for paper or live and admits the
      confidence in the regime. With the gate off it needs no record, but one that is selected still must not be
      DISABLED and must admit; and a missing version of a filed grain never executes. */
  lemma PaperExecutionIff(files: seq<Record>, q: Query, paperGate: bool)
    requires q.environment.Paper?
    ensures var s := Selected(files, q);
      Evaluate(files, q, paperGate).executionAllowed <==>
        if s.None? then !paperGate && !Mismatched(files, q)
        else
          && RegimeAdmits(s.value, q.regime, q.confidence)
          && (if paperGate then s.value.status.PaperApproved?
              || s.value.status.LiveApproved? else !s.value.status.Disabled?)
  {
    hide EvaluateRegime, Clamp01, Selected, Latest, RegimeAdmits;
    if Selected(files, q).Some? {
      AdmittedByFields(Selected(files, q).value, q.regime, q.confidence);
    }
  }

  /** Outside PAPER and LIVE nothing is ever executed or sent to review. */
  lemma OnlyPaperAndLiveExecute(files: seq<Record>, q: Query, paperGate: bool)
    ensures Evaluate(files, q, paperGate).executionAllowed ==> q.environment.Paper? || q.environment.Live?
    ensures Evaluate(files, q, paperGate).executionAllowed ==> Evaluate(files, q, paperGate).pipelineAllowed
    ensures Evaluate(files, q, paperGate).executionAllowed <==> Evaluate(files, q, paperGate).qwenAllowed
    ensures Evaluate(files, q, paperGate).executionAllowed <==> !Evaluate(files, q, paperGate).shadowOnly
    ensures Selected(files, q).Some? && Selected(files, q).value.status.Disabled? ==>
      !Evaluate(files, q, paperGate).pipelineAllowed
  {
  }

  // ---- Champion selection under new records ----

  function Landing(files: seq<Record>, slot: nat): (at: nat)
    ensures at <= |files|
  {
    if slot <= |files| then slot else |files|
  }

  /** Filing a record of a new identity adds it to every listing it matches, at its place, and changes no other
      listing. */
  lemma NewRecordInListing(files: seq<Record>, r: Record, slot: nat, p: Record -> bool)
    requires IndexOf(files, r.identity).None?
    ensures var at := Landing(files, slot);
      && Filter(files, p) == Filter(files[..at], p) + Filter(files[at..], p)
      && Filter(Put(files, r, slot), p) == Filter(files[..at], p) + (if p(r) then [r] else []) + Filter(files[at..], p)
  {
    var at := Landing(files, slot);
    assert files == files[..at] + files[at..];
    FilterConcat(files[..at], files[at..], p);
    FilterConcat(files[..at] + [r], files[at..], p);
    FilterConcat(files[..at], [r], p);
    assert Filter([r], p) == if p(r) then [r] else [];
  }

  lemma {:induction false} NewestOfConcat(xs: seq<Record>, ys: seq<Record>)
    ensures Newest(xs + ys) ==
      if Newest(xs).None? then Newest(ys)
      else if Newest(ys).None? then Newest(xs)
      else if Newest(ys).value.validatedAt > Newest(xs).value.validatedAt then Newest(ys) else Newest(xs)
    decreases |ys|
  {
    if ys == [] {
      assert xs + ys == xs;
    } else {
      var front := ys[..|ys| - 1];
      NewestOfConcat(xs, front);
      assert (xs + ys)[..|xs + ys| - 1] == xs + front;
    }
  }

  /** Adding one record to a listing either leaves its newest record, or makes the new one newest. */
  lemma NewestAfterInsert(before: seq<Record>, r: Record, after: seq<Record>)
    ensures var was, now := Newest(before + after), Newest(before + [r] + after);
      now == was || now == Some(r)
    ensures var was, now := Newest(before + after), Newest(before + [r] + after);
      was.Some? && r.validatedAt > was.value.validatedAt ==> now == Some(r)
    ensures var was, now := Newest(before + after), Newest(before + [r] + after);
      was.Some? && r.validatedAt < was.value.validatedAt ==> now == was
  {
    NewestOfConcat(before, after);
    NewestOfConcat(before + [r], after);
    NewestOfConcat(before, [r]);
    assert Newest([r]) == Some(r);
  }

  lemma SelectAfterInsert(before: seq<Record>, r: Record, after: seq<Record>, env: Environment)
    requires env.Paper? || env.Live?
    requires !r.status.Disabled? && !ApprovedFor(env)(r)
    requires Filter(before + after, ApprovedFor(env)) != []
    ensures var was, now := Newest(before + after), Newest(before + [r] + after);
      var champion := Newest(Filter(before + after, ApprovedFor(env)));
      && was.Some? && now.Some? && champion.Some?
      && SelectAmong(before + [r] + after, env) ==
           (if was.value.status.Disabled? && now != Some(r) then was else champion)
      && SelectAmong(before + after, env) == (if was.value.status.Disabled? then was else champion)
  {
    var approved := ApprovedFor(env);
    NewestAfterInsert(before, r, after);
    FilterConcat(before, after, approved);
    FilterConcat(before + [r], after, approved);
    FilterConcat(before, [r], approved);
    assert Filter([r], approved) == [];
    assert Filter(before + [r] + after, approved) == Filter(before + after, approved);
    FilterMembers(before + after, approved);
  }

  /** Whether a record of a new identity becomes the newest of its grain: it is later than the newest on file, or as
      late and listed before every record that late. */
  predicate Overtakes(files: seq<Record>, r: Record, slot: nat, grain: Identity)
    requires Latest(files, grain).Some?
  {
    var newest := Latest(files, grain).value.validatedAt;
    || r.validatedAt > newest
    || (r.validatedAt == newest
        && forall f :: f in files[..Landing(files, slot)] && SameGrain(grain)(f) ==> f.validatedAt != newest)
  }

  lemma OvertakingIsNewest(files: seq<Record>, r: Record, slot: nat, grain: Identity)
    requires IndexOf(files, r.identity).None? && SameGrain(grain)(r) && Latest(files, grain).Some?
    ensures Latest(Put(files, r, slot), grain).Some?
    ensures Latest(Put(files, r, slot), grain) == Some(r) <==> Overtakes(files, r, slot, grain)
  {
    var at, same := Landing(files, slot), SameGrain(grain);
    var before, after := Filter(files[..at], same), Filter(files[at..], same);
    NewRecordInListing(files, r, slot, same);
    FilterMembers(files[..at], same);
    FilterMembers(files[at..], same);
    NewestOfConcat(before, after);
    NewestOfConcat(before + [r], after);
    NewestOfConcat(before, [r]);
    assert Newest([r]) == Some(r);
    assert r !in before && r !in after by {
      assert forall f :: f in files[..at] ==> f in files;
      assert forall f :: f in files[at..] ==> f in files;
    }
    hide Filter;
    OvertakingListing(before, r, after);
  }

  lemma OvertakingListing(before: seq<Record>, r: Record, after: seq<Record>)
    requires r !in before && r !in after && before + after != []
    ensures Newest(before + [r] + after) == Some(r) <==>
      var newest := Newest(before + after).value.validatedAt;
      || r.validatedAt > newest
      || (r.validatedAt == newest && forall f :: f in before ==> f.validatedAt != newest)
  {
    NewestOfConcat(before, after);
    NewestOfConcat(before + [r], after);
    NewestOfConcat(before, [r]);
    assert Newest([r]) == Some(r);
    hide Newest;
  }

  /** A challenger that is neither approved for the environment nor DISABLED, filed under a new identity of the
      grain, leaves the selected champion alone exactly when it does not overtake a DISABLED record that stood
      newest; when it does, the newest approved record is selected again. */
  lemma ChallengerUncoversChampionIff(files: seq<Record>, r: Record, slot: nat, grain: Identity, env: Environment)
    requires IndexOf(files, r.identity).None? && SameGrain(grain)(r)
    requires env.Paper? || env.Live?
    requires !r.status.Disabled? && !ApprovedFor(env)(r)
    requires exists a :: a in files && SameGrain(grain)(a) && ApprovedFor(env)(a)
    ensures Latest(files, grain).Some?
    ensures var uncovers := Latest(files, grain).value.status.Disabled? && Overtakes(files, r, slot, grain);
      var selected := SelectFor(Put(files, r, slot), grain, env);
      && (selected == SelectFor(files, grain, env) <==> !uncovers)
      && (uncovers ==> selected == Newest(Filter(Filter(files, SameGrain(grain)), ApprovedFor(env))))
  {
    var at := Landing(files, slot);
    var same, approved := SameGrain(grain), ApprovedFor(env);
    var matching := Filter(files, same);
    FilterMembers(files, same);
    FilterMembers(matching, approved);
    var a :| a in files && same(a) && approved(a);
    assert a in Filter(matching, approved);
    NewRecordInListing(files, r, slot, same);
    SelectAfterInsert(Filter(files[..at], same), r, Filter(files[at..], same), env);
    OvertakingIsNewest(files, r, slot, grain);
    var champion := Newest(Filter(matching, approved));
    assert approved(champion.value);
    hide Overtakes;
  }

  /** In particular, while the newest record is not DISABLED, no such challenger changes the champion. */
  lemma ChampionIsStable(files: seq<Record>, r: Record, slot: nat, grain: Identity, env: Environment)
    requires IndexOf(files, r.identity).None? && SameGrain(grain)(r)
    requires env.Paper? || env.Live?
    requires !r.status.Disabled? && !ApprovedFor(env)(r)
    requires Latest(files, grain).Some? && !Latest(files, grain).value.status.Disabled?
    requires exists a :: a in files && SameGrain(grain)(a) && ApprovedFor(env)(a)
    ensures SelectFor(Put(files, r, slot), grain, env) == SelectFor(files, grain, env)
  {
    ChallengerUncoversChampionIff(files, r, slot, grain, env);
  }

  // ---- Repeated evaluation ----

  lemma ExactRecordIsFound(files: seq<Record>, r: Record)
    requires OnePerIdentity(files) && r in files
    ensures Get(files, r.identity) == Some(r)
  {
    var found := Get(files, r.identity).value;
    var i :| 0 <= i < |files| && files[i] == r;
    var j :| 0 <= j < |files| && files[j] == found;
  }

  lemma SelectedIsOfTheGrain(files: seq<Record>, q: Query)
    ensures var s := Selected(files, q);
      s.Some? ==>
        && s.value in files && SameGrain(q.grain)(s.value)
        && (q.grain.modelVersion != "" ==> s.value.identity == q.grain)
  {
    var matching := Filter(files, SameGrain(q.grain));
    FilterMembers(files, SameGrain(q.grain));
    FilterMembers(matching, ApprovedFor(q.environment));
  }

  /** The query a signal poses once a decision has been written into it. */
  function Requery(q: Query, d: Decision): Query {
    Query(d.grain, q.environment, q.regime, d.original)
  }

  lemma ClampTwice(x: real)
    ensures Clamp01(Clamp01(x)) == Clamp01(x)
  {
  }

  lemma DecideAgain(selected: Option<Record>, mismatch: bool, q: Query, paperGate: bool)
    ensures Decide(selected, mismatch, Requery(q, Decide(selected, mismatch, q, paperGate)), paperGate)
      == Decide(selected, mismatch, q, paperGate)
  {
    hide EvaluateRegime, StatusPolicy, Clamp01;
    ClampTwice(q.confidence);
  }

  lemma SameRecordIsSelected(files: seq<Record>, q: Query, d: Decision)
    requires OnePerIdentity(files)
    requires d.grain == (if Selected(files, q).Some?
      then q.grain.(modelVersion := Selected(files, q).value.identity.modelVersion) else q.grain)
    ensures Selected(files, Requery(q, d)) == Selected(files, q)
    ensures Mismatched(files, Requery(q, d)) == Mismatched(files, q)
  {
    SelectedIsOfTheGrain(files, q);
    if Selected(files, q).Some? {
      var r := Selected(files, q).value;
      ExactRecordIsFound(files, r);
      assert d.grain == r.identity;
    }
  }

  /** Asking again with a decision's own version and original confidence gives the same decision: a record picked by
      champion selection is found again by exact version, and a regime multiplier is applied once. */
  lemma ReevaluationIsStable(files: seq<Record>, q: Query, paperGate: bool)
    requires OnePerIdentity(files)
    ensures Evaluate(files, Requery(q, Evaluate(files, q, paperGate)), paperGate) == Evaluate(files, q, paperGate)
  {
    SameRecordIsSelected(files, q, Evaluate(files, q, paperGate));
    DecideAgain(Selected(files, q), Mismatched(files, q), q, paperGate);
  }

  // ---- Filing ----

  /** Filing keeps one file per identity: it replaces the record of its own identity and touches no other. */
  lemma PutKeepsOnePerIdentity(files: seq<Record>, r: Record, slot: nat)
    requires OnePerIdentity(files)
    ensures OnePerIdentity(Put(files, r, slot))
    ensures r in Put(files, r, slot)
    ensures forall f :: f in files && f.identity != r.identity ==> f in Put(files, r, slot)
    ensures forall f :: f in Put(files, r, slot) ==> f == r || (f in files && f.identity != r.identity)
  {
    match IndexOf(files, r.identity) {
      case Some(i) =>
        ReplacingKeepsIdentities(files, i, r);
      case None =>
        InsertingKeepsIdentities(files, Landing(files, slot), r);
    }
    hide OnePerIdentity, IndexOf;
  }

  lemma ReplacingKeepsIdentities(files: seq<Record>, i: nat, r: Record)
    requires OnePerIdentity(files) && i < |files| && files[i].identity == r.identity
    ensures OnePerIdentity(files[i := r]) && r in files[i := r]
    ensures forall f :: f in files && f.identity != r.identity ==> f in files[i := r]
    ensures forall f :: f in files[i := r] ==> f == r || (f in files && f.identity != r.identity)
  {
    var now := files[i := r];
    assert now[i] == r;
    forall f | f in files && f.identity != r.identity ensures f in now {
      var j :| 0 <= j < |files| && files[j] == f;
      assert now[j] == f;
    }
  }

  lemma InsertingKeepsIdentities(files: seq<Record>, at: nat, r: Record)
    requires OnePerIdentity(files) && at <= |files|
    requires forall i :: 0 <= i < |files| ==> files[i].identity != r.identity
    ensures var now := files[..at] + [r] + files[at..];
      && OnePerIdentity(now) && r in now
      && (forall f :: f in now <==> f == r || f in files)
      && (forall f :: f in files ==> f.identity != r.identity)
  {
    var now := files[..at] + [r] + files[at..];
    InsertedMembers(files, at, r);
    forall i, j | 0 <= i < j < |now| ensures now[i].identity != now[j].identity {
      if j == at {
        assert now[i] == files[i];
      } else if i == at {
        assert now[j] == files[j - 1];
      } else {
        var before, after := if i < at then i else i - 1, if j < at then j else j - 1;
        assert now[i] == files[before] && now[j] == files[after];
      }
    }
  }

  lemma InsertedMembers(files: seq<Record>, at: nat, r: Record)
    requires at <= |files|
    ensures forall f :: f in files[..at] + [r] + files[at..] <==> f == r || f in files
  {
    assert files == files[..at] + files[at..];
  }
}
