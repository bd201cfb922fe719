/** The legacy registry of validation artifacts: expiring verdicts and the fail-closed admission gate. */
module StrategyRegistry {
  import opened Common
  import opened OosMetrics
  import E = Eligibility

  datatype VersionStatus = Validated | NotValidated | Expired

  datatype Version = Version(
    strategy: string, version: string, timeframe: string, horizon: string,
    passed: bool, validatedAt: int, expiresAt: int,
    approvedUniverse: set<string>, approvedRegimes: set<E.Regime>,
    minimumModelConfidence: real, minimumStrategyConfidence: real, requiresMl: bool, artifact: Option<string>)

  /** The status is derived at every reading, never stored. */
  function StatusAt(v: Version, now: int): VersionStatus {
    if !v.passed then NotValidated else if now >= v.expiresAt then Expired else Validated
  }

  datatype Request = Request(
    strategy: string, regime: Option<E.Regime>, symbol: Option<string>, timeframe: Option<string>, horizon: string)

  /** An unpinned version answers for every timeframe. */
  predicate TimeframeMatches(v: Version, timeframe: Option<string>) {
    timeframe.None? || v.timeframe == "" || v.timeframe == timeframe.value
  }

  predicate IsAdmissible(v: Version, q: Request, now: int) {
    && StatusAt(v, now).Validated?
    && v.horizon == q.horizon
    && TimeframeMatches(v, q.timeframe)
    && (q.regime.Some? && v.approvedRegimes != {} ==> q.regime.value in v.approvedRegimes)
    && (q.symbol.Some? && v.approvedUniverse != {} ==> q.symbol.value in v.approvedUniverse)
  }

  function Answers(q: Request): Version -> bool {
    (v: Version) => v.strategy == q.strategy && v.horizon == q.horizon && TimeframeMatches(v, q.timeframe)
  }

  function Newest(vs: seq<Version>): (best: Option<Version>)
    ensures best.None? <==> vs == []
    ensures best.Some? ==> best.value in vs && forall v :: v in vs ==> v.validatedAt <= best.value.validatedAt
  {
    if vs == [] then None
    else
      var front, last := vs[..|vs| - 1], vs[|vs| - 1];
      assert vs == front + [last];
      match Newest(front)
      case None => Some(last)
      case Some(b) => if last.validatedAt > b.validatedAt then Some(last) else Some(b)
  }

  /** The place of the first of the newest versions. */
  ghost predicate IsFirstNewest(vs: seq<Version>, i: nat) {
    i < |vs| && forall j :: 0 <= j < |vs| ==>
      vs[j].validatedAt < vs[i].validatedAt || (vs[j].validatedAt == vs[i].validatedAt && i <= j)
  }

  lemma FirstNewestOneMore(front: seq<Version>, last: Version, i: nat)
    requires IsFirstNewest(front, i)
    ensures IsFirstNewest(front + [last], if last.validatedAt > front[i].validatedAt then |front| else i)
  {
  }

  lemma {:induction false} NewestIsFirst(vs: seq<Version>)
    requires vs != []
    ensures exists i: nat :: i < |vs| && IsFirstNewest(vs, i) && vs[i] == Newest(vs).value
  {
    var front, last := vs[..|vs| - 1], vs[|vs| - 1];
    assert vs == front + [last];
    if front == [] {
      assert IsFirstNewest(vs, 0);
    } else {
      NewestIsFirst(front);
      hide IsFirstNewest;
      var i: nat :| i < |front| && IsFirstNewest(front, i) && front[i] == Newest(front).value;
      FirstNewestOneMore(front, last, i);
      assert vs[i] == front[i];
    }
  }

  function Latest(vs: seq<Version>, q: Request): Option<Version> {
    Newest(Filter(vs, Answers(q)))
  }

  predicate IsAdmitted(vs: seq<Version>, q: Request, now: int) {
    var v := Latest(vs, q);
    v.Some? && IsAdmissible(v.value, q, now)
  }

  // ---- Admission on the fields ----

  /** The version is one for the strategy and the horizon, and for the timeframe or for all of them. */
  predicate Covers(v: Version, q: Request) {
    && v.strategy == q.strategy && v.horizon == q.horizon
    && (q.timeframe.Some? && v.timeframe != "" ==> q.timeframe.value == v.timeframe)
  }

  /** A list of regimes or symbols that is not empty must hold the one asked about, if one is. */
  predicate ApprovedFor(v: Version, q: Request) {
    && (q.regime.None? || v.approvedRegimes == {} || q.regime.value in v.approvedRegimes)
    && (q.symbol.None? || v.approvedUniverse == {} || q.symbol.value in v.approvedUniverse)
  }

  /** The place of the version that decides: the first of the newest ones that cover the request. */
  ghost predicate Decides(vs: seq<Version>, q: Request, i: nat) {
    && i < |vs| && Covers(vs[i], q)
    && forall j :: 0 <= j < |vs| && Covers(vs[j], q) ==>
         vs[j].validatedAt < vs[i].validatedAt || (vs[j].validatedAt == vs[i].validatedAt && i <= j)
  }

  lemma LatestOneMore(vs: seq<Version>, q: Request, front: seq<Version>, last: Version)
    requires vs == front + [last]
    ensures var before := Latest(front, q);
      var stays := !Covers(last, q) || (before.Some? && last.validatedAt <= before.value.validatedAt);
      Latest(vs, q) == if stays then before else Some(last)
  {
    assert vs[..|vs| - 1] == front;
    if Covers(last, q) {
      assert Filter(vs, Answers(q)) == Filter(front, Answers(q)) + [last];
      assert Filter(vs, Answers(q))[..|Filter(vs, Answers(q))| - 1] == Filter(front, Answers(q));
    }
  }

  lemma DecidesOneMore(front: seq<Version>, last: Version, q: Request, i: nat)
    requires Decides(front, q, i)
    ensures Decides(front + [last], q,
                    if Covers(last, q) && front[i].validatedAt < last.validatedAt then |front| else i)
  {
    hide Covers;
  }

  /** This version, if it is one, decides; if not, none covers the request. */
  ghost predicate Decider(vs: seq<Version>, q: Request, best: Option<Version>) {
    match best
    case None => forall v :: v in vs ==> !Covers(v, q)
    case Some(v) => exists i: nat :: i < |vs| && Decides(vs, q, i) && vs[i] == v
  }

  lemma DeciderOneMore(front: seq<Version>, last: Version, q: Request, best: Option<Version>)
    requires Decider(front, q, best)
    ensures Decider(front + [last], q,
                    if !Covers(last, q) || (best.Some? && last.validatedAt <= best.value.validatedAt) then best
                    else Some(last))
  {
    hide Covers, Decides;
    assert (front + [last])[|front|] == last;
    if best.Some? {
      var i: nat :| i < |front| && Decides(front, q, i) && front[i] == best.value;
      DecidesOneMore(front, last, q, i);
      assert (front + [last])[i] == front[i];
    } else if Covers(last, q) {
      FirstToCover(front, last, q);
    }
  }

  lemma {:induction false} LatestDecides(vs: seq<Version>, q: Request)
    ensures Decider(vs, q, Latest(vs, q))
  {
    if vs != [] {
      hide Latest, Covers, Decides, Decider;
      var front, last := vs[..|vs| - 1], vs[|vs| - 1];
      assert vs == front + [last];
      LatestDecides(front, q);
      LatestOneMore(vs, q, front, last);
      DeciderOneMore(front, last, q, Latest(front, q));
    }
  }

  lemma FirstToCover(front: seq<Version>, last: Version, q: Request)
    requires Covers(last, q) && forall v :: v in front ==> !Covers(v, q)
    ensures Decides(front + [last], q, |front|)
  {
    hide Covers;
  }

  /** A strategy is admitted exactly when the first of the newest versions that cover the request passed, has not
      expired and is approved for the regime and the symbol asked about. */
  lemma AdmittedIff(vs: seq<Version>, q: Request, now: int)
    ensures IsAdmitted(vs, q, now) <==>
      exists i: nat :: Decides(vs, q, i) && vs[i].passed && now < vs[i].expiresAt && ApprovedFor(vs[i], q)
  {
    LatestDecides(vs, q);
    hide Latest;
  }

  /** Admission looks at the newest answering version alone: a newer failed or expired one revokes every older pass. */
  lemma NewestDecides(vs: seq<Version>, q: Request, now: int, v: Version)
    requires v in vs && Covers(v, q)
    requires forall w :: w in vs && Covers(w, q) && w != v ==> w.validatedAt < v.validatedAt
    ensures Latest(vs, q) == Some(v)
    ensures IsAdmitted(vs, q, now) <==> v.passed && now < v.expiresAt && ApprovedFor(v, q)
  {
    LatestDecides(vs, q);
  }

  /** Nothing is admitted without a version on file, and an admission, once lost to time, does not come back by
      waiting. */
  lemma AdmissionOnlyExpires(vs: seq<Version>, q: Request, earlier: int, later: int)
    requires earlier <= later
    ensures IsAdmitted(vs, q, later) ==> IsAdmitted(vs, q, earlier)
    ensures IsAdmitted(vs, q, later) ==>
      exists v :: v in vs && Covers(v, q) && v.passed && later < v.expiresAt
  {
    AdmittedIff(vs, q, earlier);
    AdmittedIff(vs, q, later);
    hide IsAdmitted;
  }

  /** A version built from published figures carries their verdict and nothing else decides its status. */
  function BuildVersion(strategy: string, version: string, timeframe: string, horizon: string, universe: set<string>,
                        regimes: set<E.Regime>, verdict: Verdict, now: int, validFor: int): Version {
    Version(strategy, version, timeframe, horizon, verdict.validated, now, now + validFor, universe, regimes, 0.0, 0.0,
            false, None)
  }

  /** A published version alone on file admits its strategy exactly where and while it was validated. */
  lemma PublishedIsAdmittedIff(strategy: string, version: string, timeframe: string, horizon: string,
                               universe: set<string>, regimes: set<E.Regime>, verdict: Verdict, now: int, validFor: int,
                               q: Request, at: int)
    ensures var v := BuildVersion(strategy, version, timeframe, horizon, universe, regimes, verdict, now, validFor);
      IsAdmitted([v], q, at) <==>
        && verdict.validated && at < now + validFor
        && q.strategy == strategy && q.horizon == horizon
        && (q.timeframe.Some? && timeframe != "" ==> q.timeframe.value == timeframe)
        && (q.regime.Some? && regimes != {} ==> q.regime.value in regimes)
        && (q.symbol.Some? && universe != {} ==> q.symbol.value in universe)
  {
    var v := BuildVersion(strategy, version, timeframe, horizon, universe, regimes, verdict, now, validFor);
    var vs := [v];
    AdmittedIff(vs, q, at);
    hide IsAdmitted;
    assert Decides(vs, q, 0) <==> Covers(v, q);
    assert IsAdmitted(vs, q, at) <==> Covers(v, q) && v.passed && at < v.expiresAt && ApprovedFor(v, q);
  }

  /** Published to admitted: the version built from rounded aggregates is VALIDATED, until it expires, only if the
      unrounded aggregates validated. */
  lemma PublishedVersionsAreConservative(rs: seq<Report>, significance: seq<real> -> Option<real>, numTests: int,
                                         strategy: string, version: string, timeframe: string, horizon: string,
                                         universe: set<string>, regimes: set<E.Regime>, now: int, validFor: int,
                                         at: int)
    ensures var a := AggregateReports(rs, significance, numTests, true);
      var v := BuildVersion(strategy, version, timeframe, horizon, universe, regimes,
                            RederivedVerdict(a, numTests, true), now, validFor);
      StatusAt(v, at).Validated? ==>
        a.verdict.validated && at < now + validFor && a.trades >= 30
          && Significant(a.pValue, numTests, 0.05)
  {
    var a := AggregateReports(rs, significance, numTests, true);
    RoundingIsConservative(rs, significance, numTests, true);
    ValidatedIff(a.trades, a.expectancy, a.returnPct, a.consistency, a.pValue, numTests, true, P_VALUE_THRESHOLD);
    hide Significant, RederivedVerdict, EdgeVerdict;
  }

  class Registry {
    var versions: seq<Version>

    /** Splits the names, in order, into those admitted and those stripped. */
    method FilterAdmitted(names: seq<string>, q: Request, now: int)
      returns (admitted: seq<string>, stripped: seq<string>)
      ensures admitted == Filter(names, Admits(versions, q, now))
      ensures stripped == Filter(names, Strips(versions, q, now))
    {
      admitted, stripped := [], [];
      for i := 0 to |names|
        invariant admitted == Filter(names[..i], Admits(versions, q, now))
        invariant stripped == Filter(names[..i], Strips(versions, q, now))
      {
        assert names[..i + 1][..i] == names[..i];
        if IsAdmitted(versions, q.(strategy := names[i]), now) {
          admitted := admitted + [names[i]];
        } else {
          stripped := stripped + [names[i]];
        }
      }
      assert names[..|names|] == names;
    }
  }

  function Admits(vs: seq<Version>, q: Request, now: int): string -> bool {
    (name: string) => IsAdmitted(vs, q.(strategy := name), now)
  }

  function Strips(vs: seq<Version>, q: Request, now: int): string -> bool {
    (name: string) => !IsAdmitted(vs, q.(strategy := name), now)
  }
}
