/** Candidate signals, the material state a review is filed under, and the cache of review verdicts. */
module VerdictCache {
  import opened Common
  import opened Drawdown
  import E = Eligibility

  datatype Handling = Continue | ContinueWithCaution | RequireReview | ContextReject

  datatype Review = Review(handling: Handling, confidence: real) {
    predicate Approves() {
      handling.Continue? || handling.ContinueWithCaution?
    }
  }

  datatype Outcome = Approve | Reject | Deferred

  datatype Basis = NotActive | ClearContext | Cached | Capacity | Reviewed | Unreviewed

  datatype Validation = Validation(outcome: Outcome, confidence: real, basis: Basis)

  /** One candidate. `text` holds the remaining descriptive fields, which are only ever compared; optional numbers
      are absent when missing, unparseable or not finite. */
  datatype Signal = Signal(
    id: string, symbol: string, grain: E.Identity, supporting: seq<string>, opposing: seq<string>, text: seq<string>,
    declaredMode: Option<string>, mtfPassed: Option<bool>, entryState: string,
    confidence: real, originalConfidence: Option<real>,
    mlProbability: Option<real>, rankedProbability: Option<real>,
    expectedR: Option<real>, rankedExpectedR: Option<real>, riskReward: Option<real>, entryQuality: Option<real>,
    entryPrice: real, stopLoss: real, positionPct: real, quantity: int,
    decision: Option<E.Decision>, validation: Option<Validation>)

  datatype StepSizes = StepSizes(probability: real, expectedR: real, score: real, moveBps: real)

  /** Step sizes as the settings accept them. */
  type Steps = s: StepSizes | s.probability > 0.0 && s.expectedR > 0.0 && s.score > 0.0 && s.moveBps >= 1.0
    witness StepSizes(0.05, 0.1, 5.0, 20.0)

  datatype Context = Context(regime: E.Regime, version: string, steps: Steps)

  datatype MaterialState = MaterialState(
    grain: E.Identity, symbol: string, text: seq<string>, supporting: multiset<string>, opposing: multiset<string>,
    regime: E.Regime, entryState: string, score: Option<real>, probability: Option<real>, expectedR: Option<real>,
    price: Option<int>, status: Option<E.Status>, policy: Option<E.Policy>, contextVersion: string)

  function Or(first: Option<real>, second: Option<real>): Option<real> {
    if first.Some? then first else second
  }

  function Probability(s: Signal): Option<real> {
    Or(s.mlProbability, s.rankedProbability)
  }

  function ExpectedR(s: Signal): Option<real> {
    Or(s.expectedR, Or(s.rankedExpectedR, s.riskReward))
  }

  /** On the 0-100 scale: scores up to 1 are fractions. */
  function EntryScore(s: Signal): real {
    var raw := if s.entryQuality.Some? then s.entryQuality.value else s.confidence;
    if raw <= 1.0 then raw * 100.0 else raw
  }

  function Multiple(n: int, step: real): real {
    n as real * step
  }

  function Quantize(value: Option<real>, step: real): Option<real>
    requires step > 0.0
  {
    if value.None? then None else Some(Multiple(RoundHalfEven(value.value / step), step))
  }

  /** The logarithm enters through its laws alone. */
  ghost predicate IsLogarithm(ln: real -> real) {
    && (forall x, y :: x > 0.0 && y > 0.0 ==> Additive(ln, x, y))
    && (forall x, y :: x > 0.0 && y > 0.0 ==> Increasing(ln, x, y))
  }

  predicate Additive(ln: real -> real, x: real, y: real) {
    ln(x * y) == ln(x) + ln(y)
  }

  predicate Increasing(ln: real -> real, x: real, y: real) {
    x < y ==> ln(x) < ln(y)
  }

  function PriceBucket(price: real, moveBps: real, ln: real -> real): Option<int> {
    if price <= 0.0 then None
    else
      var ratio := ln(1.0 + moveBps / 10000.0);
      if ratio > 0.0 then Some(RoundHalfEven(ln(price) / ratio)) else None
  }

  /** The material state itself stands for its hash. */
  function Fingerprint(s: Signal, ctx: Context, ln: real -> real): MaterialState
  {
    MaterialState(
      s.grain, s.symbol, s.text, multiset(s.supporting), multiset(s.opposing), ctx.regime, s.entryState,
      Quantize(Some(EntryScore(s)), ctx.steps.score),
      Quantize(Probability(s), ctx.steps.probability),
      Quantize(ExpectedR(s), ctx.steps.expectedR),
      PriceBucket(s.entryPrice, ctx.steps.moveBps, ln),
      if s.decision.Some? then Some(s.decision.value.status) else None,
      if s.decision.Some? then Some(s.decision.value.policy) else None,
      ctx.version)
  }

  // ---- The measures on the fields ----

  /** The first of the values that is given, or nothing when none is. */
  ghost predicate FirstGiven(values: seq<Option<real>>, r: Option<real>) {
    || (r.None? && forall v :: v in values ==> v.None?)
    || (r.Some? && exists k: nat :: FoundAt(values, r, k))
  }

  predicate FoundAt(values: seq<Option<real>>, r: Option<real>, k: nat) {
    k < |values| && values[k] == r && forall j :: 0 <= j < k ==> values[j].None?
  }

  /** A score out of 100: the entry quality or, without one, the confidence, where at most 1 means a fraction. */
  ghost predicate IsScore(s: Signal, score: real) {
    exists raw :: FirstGiven([s.entryQuality, Some(s.confidence)], Some(raw)) &&
      (raw <= 1.0 ==> score == 100.0 * raw) && (raw > 1.0 ==> score == raw)
  }

  /** The measures a review is filed under are the first given ones, a value of the candidate's own before a ranked
      one and the reward-to-risk ratio last. */
  lemma MeasuresAreFirstGiven(s: Signal)
    ensures FirstGiven([s.mlProbability, s.rankedProbability], Probability(s))
    ensures FirstGiven([s.expectedR, s.rankedExpectedR, s.riskReward], ExpectedR(s))
    ensures IsScore(s, EntryScore(s))
  {
    var chances := [s.mlProbability, s.rankedProbability];
    assert FoundAt(chances, Probability(s), 0) || FoundAt(chances, Probability(s), 1) || Probability(s).None?;
    var rewards := [s.expectedR, s.rankedExpectedR, s.riskReward];
    assert FoundAt(rewards, ExpectedR(s), 0) || FoundAt(rewards, ExpectedR(s), 1) || FoundAt(rewards, ExpectedR(s), 2)
      || ExpectedR(s).None?;
    var raw := if s.entryQuality.Some? then s.entryQuality.value else s.confidence;
    var scores := [s.entryQuality, Some(s.confidence)];
    assert FoundAt(scores, Some(raw), 0) || FoundAt(scores, Some(raw), 1);
  }

  // ---- Bounded reuse ----

  /** Both absent, or both present and within one step. */
  predicate WithinStep(x: Option<real>, y: Option<real>, step: real) {
    (x.None? && y.None?) || (x.Some? && y.Some? && -step <= x.value - y.value <= step)
  }

  lemma HalfStep(n: real, half: real, step: real)
    ensures (n + half) * step == n * step + half * step
  {
  }

  lemma HalfAbove(x: real, n: real, step: real)
    requires step > 0.0 && x / step - n <= 0.5
    ensures x <= n * step + 0.5 * step
  {
    DivTimes(x, step);
    ScaleOrder(x / step, n + 0.5, step);
    HalfStep(n, 0.5, step);
  }

  lemma HalfBelow(x: real, n: real, step: real)
    requires step > 0.0 && -0.5 <= x / step - n
    ensures n * step - 0.5 * step <= x
  {
    DivTimes(x, step);
    ScaleOrder(n - 0.5, x / step, step);
    HalfStep(n, -0.5, step);
  }

  /** A value is at most half a step from the multiple it is rounded to. */
  lemma BucketBounds(x: real, n: int, step: real)
    requires step > 0.0 && -0.5 <= x / step - n as real <= 0.5
    ensures n as real * step - 0.5 * step <= x <= n as real * step + 0.5 * step
  {
    HalfAbove(x, n as real, step);
    HalfBelow(x, n as real, step);
  }

  /** A bucket is the multiple of the step nearest to the value. */
  lemma BucketIsNearest(x: real, step: real)
    requires step > 0.0
    ensures var bucket := Quantize(Some(x), step).value;
      && bucket == RoundHalfEven(x / step) as real * step
      && bucket - 0.5 * step <= x <= bucket + 0.5 * step
  {
    BucketBounds(x, RoundHalfEven(x / step), step);
  }

  lemma QuantizedTogether(x: Option<real>, y: Option<real>, step: real)
    requires step > 0.0 && Quantize(x, step) == Quantize(y, step)
    ensures WithinStep(x, y, step)
  {
    if x.Some? {
      BucketBounds(x.value, RoundHalfEven(x.value / step), step);
      BucketBounds(y.value, RoundHalfEven(y.value / step), step);
    }
  }

  lemma LogarithmOfMove(ln: real -> real, move: real)
    requires IsLogarithm(ln) && move > 0.0
    ensures ln(1.0 + move) > 0.0
  {
    assert Additive(ln, 1.0, 1.0);
    assert Increasing(ln, 1.0, 1.0 + move);
  }

  lemma ProductBound(ln: real -> real, p: real, factor: real, q: real)
    requires IsLogarithm(ln) && p > 0.0 && factor > 0.0 && q > 0.0
    requires ln(q) <= ln(p) + ln(factor)
    ensures q <= p * factor
  {
    assert Additive(ln, p, factor);
    assert p * factor > 0.0;
    assert Increasing(ln, p * factor, q);
  }

  /** Prices in one bucket are within a factor of one material move, whichever is larger. */
  lemma PricesTogether(p: real, q: real, moveBps: real, ln: real -> real)
    requires IsLogarithm(ln) && moveBps > 0.0 && p > 0.0 && q > 0.0
    requires PriceBucket(p, moveBps, ln) == PriceBucket(q, moveBps, ln)
    ensures q <= p * (1.0 + moveBps / 10000.0)
  {
    LogarithmOfMove(ln, moveBps / 10000.0);
    var ratio := ln(1.0 + moveBps / 10000.0);
    var n := RoundHalfEven(ln(p) / ratio);
    BucketBounds(ln(p), n, ratio);
    BucketBounds(ln(q), n, ratio);
    ProductBound(ln, p, 1.0 + moveBps / 10000.0, q);
  }

  /** A verdict is reused only between candidates that agree on every descriptive field and whose measured fields are
      close: absent together or within one step, and entry prices within one material move of each other. */
  lemma BoundedReuse(s: Signal, t: Signal, ctx: Context, other: Context, ln: real -> real)
    requires IsLogarithm(ln) && ctx.steps == other.steps
    requires Fingerprint(s, ctx, ln) == Fingerprint(t, other, ln)
    ensures ctx.regime == other.regime && ctx.version == other.version
    ensures multiset(s.supporting) == multiset(t.supporting) && multiset(s.opposing) == multiset(t.opposing)
    ensures WithinStep(Probability(s), Probability(t), ctx.steps.probability)
    ensures WithinStep(ExpectedR(s), ExpectedR(t), ctx.steps.expectedR)
    ensures WithinStep(Some(EntryScore(s)), Some(EntryScore(t)), ctx.steps.score)
    ensures s.entryPrice <= 0.0 <==> t.entryPrice <= 0.0
    ensures s.entryPrice > 0.0 ==>
      && t.entryPrice <= s.entryPrice * (1.0 + ctx.steps.moveBps / 10000.0)
      && s.entryPrice <= t.entryPrice * (1.0 + ctx.steps.moveBps / 10000.0)
    ensures s.symbol == t.symbol && s.grain == t.grain && s.entryState == t.entryState && s.text == t.text
    ensures s.decision.Some? <==> t.decision.Some?
    ensures s.decision.Some? ==>
      s.decision.value.status == t.decision.value.status && s.decision.value.policy == t.decision.value.policy
  {
    QuantizedTogether(Probability(s), Probability(t), ctx.steps.probability);
    QuantizedTogether(ExpectedR(s), ExpectedR(t), ctx.steps.expectedR);
    QuantizedTogether(Some(EntryScore(s)), Some(EntryScore(t)), ctx.steps.score);
    LogarithmOfMove(ln, ctx.steps.moveBps / 10000.0);
    if s.entryPrice > 0.0 && t.entryPrice > 0.0 {
      PricesTogether(s.entryPrice, t.entryPrice, ctx.steps.moveBps, ln);
      PricesTogether(t.entryPrice, s.entryPrice, ctx.steps.moveBps, ln);
    }
  }

  // ---- Reuse happens ----

  /** Strictly less than half a step from the n-th multiple. */
  predicate Near(x: real, n: int, step: real) {
    var lower, upper := n as real - 0.5, n as real + 0.5;
    lower * step < x < upper * step
  }

  ghost predicate NearOneMultiple(x: real, y: real, step: real) {
    exists n :: Near(x, n, step) && Near(y, n, step)
  }

  ghost predicate Alike(x: Option<real>, y: Option<real>, step: real) {
    (x.None? && y.None?) || (x.Some? && y.Some? && NearOneMultiple(x.value, y.value, step))
  }

  lemma OneRounding(ratio: real, n: int)
    requires n as real - 0.5 < ratio < n as real + 0.5
    ensures RoundHalfEven(ratio) == n
  {
  }

  lemma Between(x: real, ratio: real, lower: real, upper: real, step: real)
    requires step > 0.0 && ratio * step == x
    requires lower * step < x && x < upper * step
    ensures lower < ratio < upper
  {
    ScaleOrder(ratio, lower, step);
    ScaleOrder(upper, ratio, step);
  }

  lemma NearRoundsTo(x: real, n: int, step: real)
    requires step > 0.0 && Near(x, n, step)
    ensures RoundHalfEven(x / step) == n
  {
    var ratio, lower, upper := x / step, n as real - 0.5, n as real + 0.5;
    DivTimes(x, step);
    assert ratio * step == x;
    Between(x, ratio, lower, upper, step);
    OneRounding(ratio, n);
  }

  lemma AlikeQuantize(x: Option<real>, y: Option<real>, step: real)
    requires step > 0.0 && Alike(x, y, step)
    ensures Quantize(x, step) == Quantize(y, step)
  {
    hide Near;
    if x.Some? {
      var n :| Near(x.value, n, step) && Near(y.value, n, step);
      NearRoundsTo(x.value, n, step);
      NearRoundsTo(y.value, n, step);
    }
  }

  lemma AlikePrices(p: real, q: real, moveBps: real, ln: real -> real)
    requires IsLogarithm(ln) && moveBps > 0.0
    requires || (p <= 0.0 && q <= 0.0)
             || (p > 0.0 && q > 0.0 && NearOneMultiple(ln(p), ln(q), ln(1.0 + moveBps / 10000.0)))
    ensures PriceBucket(p, moveBps, ln) == PriceBucket(q, moveBps, ln)
  {
    LogarithmOfMove(ln, moveBps / 10000.0);
    if p > 0.0 {
      AlikeQuantize(Some(ln(p)), Some(ln(q)), ln(1.0 + moveBps / 10000.0));
      var n :| Near(ln(p), n, ln(1.0 + moveBps / 10000.0)) && Near(ln(q), n, ln(1.0 + moveBps / 10000.0));
      NearRoundsTo(ln(p), n, ln(1.0 + moveBps / 10000.0));
      NearRoundsTo(ln(q), n, ln(1.0 + moveBps / 10000.0));
    }
  }

  /** Candidates that agree on the descriptive fields, in any order of their evidence, and whose measures are each less
      than half a step from one multiple do share a fingerprint: what else they carry does not prevent a reuse. */
  lemma AlikeShareFingerprint(s: Signal, t: Signal, ctx: Context, ln: real -> real)
    requires IsLogarithm(ln)
    requires s.symbol == t.symbol && s.grain == t.grain && s.entryState == t.entryState && s.text == t.text
    requires multiset(s.supporting) == multiset(t.supporting) && multiset(s.opposing) == multiset(t.opposing)
    requires Alike(Probability(s), Probability(t), ctx.steps.probability)
    requires Alike(ExpectedR(s), ExpectedR(t), ctx.steps.expectedR)
    requires NearOneMultiple(EntryScore(s), EntryScore(t), ctx.steps.score)
    requires || (s.entryPrice <= 0.0 && t.entryPrice <= 0.0)
             || (s.entryPrice > 0.0 && t.entryPrice > 0.0 &&
                 NearOneMultiple(ln(s.entryPrice), ln(t.entryPrice), ln(1.0 + ctx.steps.moveBps / 10000.0)))
    requires s.decision.Some? <==> t.decision.Some?
    requires s.decision.Some? ==>
      s.decision.value.status == t.decision.value.status && s.decision.value.policy == t.decision.value.policy
    ensures Fingerprint(s, ctx, ln) == Fingerprint(t, ctx, ln)
  {
    hide Alike, NearOneMultiple, Probability, ExpectedR, EntryScore, Quantize, PriceBucket, IsLogarithm;
    AlikeQuantize(Probability(s), Probability(t), ctx.steps.probability);
    AlikeQuantize(ExpectedR(s), ExpectedR(t), ctx.steps.expectedR);
    AlikeScores(s, t, ctx.steps.score);
    AlikePrices(s.entryPrice, t.entryPrice, ctx.steps.moveBps, ln);
  }

  lemma AlikeScores(s: Signal, t: Signal, step: real)
    requires step > 0.0 && NearOneMultiple(EntryScore(s), EntryScore(t), step)
    ensures Quantize(Some(EntryScore(s)), step) == Quantize(Some(EntryScore(t)), step)
  {
    hide EntryScore;
    AlikeQuantize(Some(EntryScore(s)), Some(EntryScore(t)), step);
  }

  // ---- The cache ----

  datatype Verdict = Verdict(fingerprint: MaterialState, review: Review, reviewedAt: int, expiresAt: int)

  function MakeVerdict(fingerprint: MaterialState, review: Review, ttl: int, now: int): Verdict {
    Verdict(fingerprint, Review(review.handling, Clamp01(review.confidence)), now, now + if ttl > 0 then ttl else 0)
  }

  function Lookup(entries: map<MaterialState, Verdict>, fingerprint: MaterialState, now: int): Option<Verdict> {
    if fingerprint in entries && now < entries[fingerprint].expiresAt then Some(entries[fingerprint]) else None
  }

  /** A lookup drops the entry it finds expired. */
  function AfterLookup(entries: map<MaterialState, Verdict>, fingerprint: MaterialState, now: int)
    : map<MaterialState, Verdict> {
    if fingerprint in entries && now >= entries[fingerprint].expiresAt then entries - {fingerprint} else entries
  }

  class CandidateVerdictCache {
    var entries: map<MaterialState, Verdict>
    var hits: nat
    var misses: nat
    ghost var lookups: nat  // since the cache was last cleared

    ghost predicate Valid()
      reads this
    {
      && hits + misses == lookups
      && forall f :: f in entries ==> entries[f].fingerprint == f
    }

    constructor ()
      ensures Valid() && entries == map[] && hits == misses == 0
    {
      entries, hits, misses, lookups := map[], 0, 0, 0;
    }

    /** An expired verdict is never returned, and looking it up removes it. */
    method Get(fingerprint: MaterialState, now: int) returns (verdict: Option<Verdict>)
      requires Valid()
      modifies this
      ensures Valid() && lookups == old(lookups) + 1
      ensures verdict == Lookup(old(entries), fingerprint, now)
      ensures entries == AfterLookup(old(entries), fingerprint, now)
      ensures hits == old(hits) + (if verdict.Some? then 1 else 0)
    {
      lookups := lookups + 1;
      if fingerprint !in entries {
        misses := misses + 1;
        return None;
      }
      var found := entries[fingerprint];
      if now >= found.expiresAt {
        entries := entries - {fingerprint};
        misses := misses + 1;
        return None;
      }
      hits := hits + 1;
      return Some(found);
    }

    method Set(verdict: Verdict)
      requires Valid()
      modifies `entries
      ensures Valid() && entries == old(entries)[verdict.fingerprint := verdict]
    {
      entries := entries[verdict.fingerprint := verdict];
    }

    method Clear()
      modifies this
      ensures Valid() && entries == map[] && hits == misses == 0
    {
      entries, hits, misses, lookups := map[], 0, 0, 0;
    }

    method HitRate() returns (rate: real)
      requires Valid()
      ensures 0.0 <= rate <= 1.0
      ensures rate * lookups as real == hits as real
    {
      var total := hits + misses;
      rate := if total > 0 then hits as real / total as real else 0.0;
      if total > 0 {
        RateOf(hits, total);
      }
    }
  }

  lemma RateOf(part: nat, total: nat)
    requires part <= total && total > 0
    ensures 0.0 <= part as real / total as real <= 1.0
    ensures (part as real / total as real) * total as real == part as real
  {
    var rate := part as real / total as real;
    assert rate * total as real == part as real;
    assert (1.0 - rate) * total as real >= 0.0;
  }
}
