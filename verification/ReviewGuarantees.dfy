/** What the validation of a batch guarantees, whatever Qwen answers. */
module ReviewGuarantees {
  import opened Common
  import opened VerdictCache
  import opened SignalValidation

  type Entries = map<MaterialState, Verdict>

  ghost predicate Within(group: seq<Signal>, signals: seq<Signal>) {
    forall s :: s in group ==> s in signals
  }

  // ---- Distinct identifiers ----

  lemma {:induction false} FilterDistinct(signals: seq<Signal>, p: Signal -> bool)
    requires DistinctIds(signals)
    ensures DistinctIds(Filter(signals, p))
  {
    if signals != [] {
      var front := signals[..|signals| - 1];
      assert signals == front + [signals[|signals| - 1]];
      FilterDistinct(front, p);
      FilteredIds(front, p);
      NewIdentifier(signals, |front|);
      forall s | s in Filter(front, p) ensures s.id in Ids(front) {
        assert s.id in Ids(Filter(front, p));
      }
    }
  }

  lemma {:induction false} InsertDistinct(q: seq<Signal>, x: Signal, r: Round)
    requires DistinctIds(q) && x.id !in Ids(q)
    ensures DistinctIds(Insert(q, x, r)) && Ids(Insert(q, x, r)) == Ids(q) + {x.id}
  {
    hide Before;
    if q != [] && !Before(x, q[0], r) {
      assert q == [q[0]] + q[1..];
      assert Ids(q) == {q[0].id} + Ids(q[1..]);
      InsertDistinct(q[1..], x, r);
      var rest := Insert(q[1..], x, r);
      assert q[0].id !in Ids(rest);
      assert Ids([q[0]] + rest) == {q[0].id} + Ids(rest);
    } else {
      assert Ids([x] + q) == {x.id} + Ids(q);
    }
  }

  lemma {:induction false} SortedDistinct(q: seq<Signal>, r: Round)
    requires DistinctIds(q)
    ensures DistinctIds(Sorted(q, r)) && Ids(Sorted(q, r)) == Ids(q)
  {
    if q != [] {
      assert q == [q[0]] + q[1..];
      assert Ids(q) == {q[0].id} + Ids(q[1..]);
      SortedDistinct(q[1..], r);
      InsertDistinct(Sorted(q[1..], r), q[0], r);
    }
  }

  lemma KnownById(signals: seq<Signal>, group: seq<Signal>, s: Signal)
    requires DistinctIds(signals) && Within(group, signals) && s in signals
    ensures s.id in Ids(group) <==> s in group
  {
  }

  // ---- Who is where ----

  ghost predicate Uncached(s: Signal, r: Round, entries: Entries) {
    NeedsReview(r)(s) && CachedVerdict(s, r, entries).None?
  }

  lemma MissesAndLeftOver(signals: seq<Signal>, r: Round, entries: Entries)
    requires DistinctIds(signals)
    ensures var q := Queue(signals, r);
      var ms, ds := Misses(q, r, entries), LeftOver(q, r, entries);
      && DistinctIds(q) && DistinctIds(ms + ds) && Within(ms + ds, signals)
      && (forall s :: s in signals ==> (Uncached(s, r, entries) <==> s in ms + ds))
  {
    var q := Queue(signals, r);
    FilterDistinct(signals, NeedsReview(r));
    SortedDistinct(Filter(signals, NeedsReview(r)), r);
    QueueMembers(signals, r);
    var uncached := Filter(q, Missed(r, entries));
    FilterMembers(q, Missed(r, entries));
    FilterDistinct(q, Missed(r, entries));
    assert Misses(q, r, entries) + LeftOver(q, r, entries) == uncached;
    hide CachedVerdict, Queue, Filter, DistinctIds;
  }

  lemma HitsAreTheRest(signals: seq<Signal>, r: Round, entries: Entries)
    requires DistinctIds(signals)
    ensures var hits := Filter(Queue(signals, r), Hit(r, entries));
      && DistinctIds(hits) && Within(hits, signals)
      && (forall s :: s in signals ==> (s in hits <==> NeedsReview(r)(s) && !Uncached(s, r, entries)))
  {
    var q := Queue(signals, r);
    FilterDistinct(signals, NeedsReview(r));
    SortedDistinct(Filter(signals, NeedsReview(r)), r);
    QueueMembers(signals, r);
    FilterMembers(q, Hit(r, entries));
    FilterDistinct(q, Hit(r, entries));
    hide CachedVerdict, Queue, Filter, DistinctIds;
  }

  lemma CompleteAt(before: map<string, Signal>, group: seq<Signal>, rule: Signal -> Validation, signals: seq<Signal>,
                   s: Signal)
    requires DistinctIds(signals) && DistinctIds(group) && Within(group, signals) && s in signals
    ensures var now := CompleteAll(before, group, rule);
      if s in group then s.id in now && now[s.id] == WithValidation(s, rule(s))
      else (s.id in now <==> s.id in before) && (s.id in before ==> now[s.id] == before[s.id])
  {
    KnownById(signals, group, s);
    CompleteAllKeys(before, group, rule);
    if s in group {
      CompletedIn(before, group, rule, s);
    } else if s.id in before {
      NotCompletedIn(before, group, rule, s.id);
    }
    hide CompleteAll, WithValidation;
  }

  /** Every candidate of the batch ends up in the dictionary with exactly its own fate. */
  lemma FateReached(signals: seq<Signal>, r: Round, entries: Entries, answer: Answer, s: Signal)
    requires DistinctIds(signals) && s in signals
    ensures var misses := Misses(Queue(signals, r), r, entries);
      var done := FinalMap(signals, r, entries, answer);
      s.id in done && done[s.id] == WithValidation(s, Fate(s, r, entries, misses, ParsedAnswer(answer, misses)))
  {
    var queue := Queue(signals, r);
    var misses, deferred := Misses(queue, r, entries), LeftOver(queue, r, entries);
    var clear, hits := Filter(signals, Clear(r)), Filter(queue, Hit(r, entries));
    FilterMembers(signals, Clear(r));
    FilterDistinct(signals, Clear(r));
    HitsAreTheRest(signals, r, entries);
    MissesAndLeftOver(signals, r, entries);
    var deferral := Always(Validation(Deferred, 0.0, Capacity));
    CompleteAt(map[], clear, ByTriage(r), signals, s);
    var triaged := CompleteAll(map[], clear, ByTriage(r));
    CompleteAt(triaged, hits, ByCache(r, entries), signals, s);
    var looked := CompleteAll(triaged, hits, ByCache(r, entries));
    Halves(misses, deferred, signals);
    CompleteAt(looked, deferred, deferral, signals, s);
    var settled := CompleteAll(looked, deferred, deferral);
    var reviews := ParsedAnswer(answer, misses);
    if reviews.Some? {
      CompleteAt(settled, misses, ByReview(reviews.value), signals, s);
    }
    var reviewed := if reviews.Some? then CompleteAll(settled, misses, ByReview(reviews.value)) else settled;
    FailedAt(reviewed, misses, signals, s);
    hide CompleteAll, FailAll, WithValidation, CachedVerdict, Queue, Misses, LeftOver, Filter, DistinctIds, IsActive,
      Judged, ParsedAnswer;
  }

  lemma FailedAt(before: map<string, Signal>, misses: seq<Signal>, signals: seq<Signal>, s: Signal)
    requires DistinctIds(signals) && Within(misses, signals) && s in signals
    ensures var now := FailAll(before, misses);
      if s in misses && s.id !in before then s.id in now && now[s.id] == WithValidation(s, FAILED)
      else (s.id in now <==> s.id in before) && (s.id in before ==> now[s.id] == before[s.id])
  {
    KnownById(signals, misses, s);
    FailAllMeans(before, misses);
    hide FailAll, WithValidation;
  }

  lemma Halves(ms: seq<Signal>, ds: seq<Signal>, signals: seq<Signal>)
    requires DistinctIds(ms + ds) && Within(ms + ds, signals)
    ensures DistinctIds(ms) && DistinctIds(ds) && Within(ms, signals) && Within(ds, signals)
    ensures forall s :: s in ms + ds <==> s in ms || s in ds
    ensures forall s :: !(s in ms && s in ds)
  {
    assert forall i :: 0 <= i < |ms| ==> ms[i] == (ms + ds)[i];
    assert forall i :: 0 <= i < |ds| ==> ds[i] == (ms + ds)[|ms| + i];
  }

  // ---- The batch ----

  /** One call of the node: the candidates, what is fixed for the round, Qwen's answer and when it came. */
  datatype Batch = Batch(signals: seq<Signal>, round: Round, answer: Answer, reviewedAt: int)

  function MissesOf(b: Batch, entries: Entries): seq<Signal> {
    Misses(Queue(b.signals, b.round), b.round, entries)
  }

  function DeferredOf(b: Batch, entries: Entries): seq<Signal> {
    LeftOver(Queue(b.signals, b.round), b.round, entries)
  }

  ghost function ReviewsOf(b: Batch, entries: Entries): Option<map<string, Review>> {
    ParsedAnswer(b.answer, MissesOf(b, entries))
  }

  ghost function FateOf(s: Signal, b: Batch, entries: Entries): Validation {
    Fate(s, b.round, entries, MissesOf(b, entries), ReviewsOf(b, entries))
  }

  function Approved(s: Signal): bool {
    s.validation.Some? && s.validation.value.outcome.Approve?
  }

  function NotApproved(s: Signal): bool {
    !Approved(s)
  }

  ghost function Completed(b: Batch, entries: Entries): map<string, Signal> {
    FinalMap(b.signals, b.round, entries, b.answer)
  }

  /** The batch in input order, each place with the candidate completed under its identifier. */
  ghost function BatchOutcome(b: Batch, entries: Entries): seq<Signal> {
    Gather(Completed(b, entries), b.signals)
  }

  ghost function NextEntries(b: Batch, entries: Entries): Entries {
    var looked := AfterLookups(entries, Queue(b.signals, b.round), b.round);
    var reviews := ReviewsOf(b, entries);
    if reviews.Some? && Ids(MissesOf(b, entries)) <= reviews.value.Keys
    then AfterReviews(looked, MissesOf(b, entries), reviews.value, b.round, b.reviewedAt) else looked
  }

  lemma ReviewsCoverMisses(b: Batch, entries: Entries)
    requires ReviewsOf(b, entries).Some?
    ensures ReviewsOf(b, entries).value.Keys == Ids(MissesOf(b, entries))
    ensures b.answer.Replied? && Exact(b.answer.items, Ids(MissesOf(b, entries)))
    ensures MissesOf(b, entries) != []
  {
    ReviewMapMeans(b.answer.items);
  }

  function Gather(completed: map<string, Signal>, signals: seq<Signal>): seq<Signal> {
    if signals == [] then []
    else
      var last := signals[|signals| - 1];
      Gather(completed, signals[..|signals| - 1]) + if last.id in completed then [completed[last.id]] else []
  }

  lemma {:induction false} GatherAt(completed: map<string, Signal>, signals: seq<Signal>)
    requires Ids(signals) <= completed.Keys
    ensures |Gather(completed, signals)| == |signals|
    ensures forall i :: 0 <= i < |signals| ==>
      signals[i].id in completed && Gather(completed, signals)[i] == completed[signals[i].id]
  {
    if signals != [] {
      var front, last := signals[..|signals| - 1], signals[|signals| - 1];
      assert signals == front + [last];
      IdsOneMore(front, last);
      GatherAt(completed, front);
    }
  }

  /** Validates a batch against the cache. Whatever Qwen does, the validated and the rejected candidates are
      the approved and the other ones of the batch's outcome, in input order. */
  method Validate(cache: CandidateVerdictCache, b: Batch)
    returns (validated: seq<Signal>, rejected: seq<Signal>, misses: seq<Signal>, deferred: seq<Signal>)
    requires cache.Valid()
    modifies cache
    ensures cache.Valid() && cache.entries == NextEntries(b, old(cache.entries))
    ensures misses == MissesOf(b, old(cache.entries)) && deferred == DeferredOf(b, old(cache.entries))
    ensures validated == Filter(BatchOutcome(b, old(cache.entries)), Approved)
    ensures rejected == Filter(BatchOutcome(b, old(cache.entries)), NotApproved)
  {
    ghost var entries := cache.entries;
    var r := b.round;
    var completed, queue := Triage(b.signals, r);
    queue := Sorted(queue, r);
    completed, misses, deferred := LookUp(cache, queue, r, completed);
    completed := Settle(deferred, Validation(Deferred, 0.0, Capacity), completed);
    var reviews := None;
    if misses != [] && b.answer.Replied? {
      reviews := ParseReviews(b.answer.items, misses);
    }
    assert reviews == ReviewsOf(b, entries);
    if reviews.Some? {
      ReviewsCoverMisses(b, entries);
      completed := Apply(cache, misses, reviews.value, r, b.reviewedAt, completed);
    }
    completed := FailClosed(misses, completed);
    assert completed == Completed(b, entries);
    assert Gather(completed, b.signals) == BatchOutcome(b, entries);
    hide *;
    var complete := Gather(completed, b.signals);
    validated := Filter(complete, Approved);
    rejected := Filter(complete, NotApproved);
  }

  // ---- Guarantees of one batch ----

  /** Every candidate stands at its own place, with its own fate. */
  lemma OutcomeAt(b: Batch, entries: Entries)
    requires DistinctIds(b.signals)
    ensures |BatchOutcome(b, entries)| == |b.signals|
    ensures forall i :: 0 <= i < |b.signals| ==>
      BatchOutcome(b, entries)[i] == b.signals[i].(validation := Some(FateOf(b.signals[i], b, entries)))
  {
    forall s | s in b.signals
      ensures s.id in Completed(b, entries) && Completed(b, entries)[s.id] == WithValidation(s, FateOf(s, b, entries))
    {
      FateReached(b.signals, b.round, entries, b.answer, s);
    }
    hide Completed, FateOf, WithValidation;
    GatherAt(Completed(b, entries), b.signals);
  }

  /** The candidates differ in something besides their validation. */
  ghost predicate AllDifferent(signals: seq<Signal>) {
    forall i, j :: 0 <= i < j < |signals| ==> signals[i].(validation := None) != signals[j].(validation := None)
  }

  ghost predicate OwnPlaces(b: Batch, entries: Entries) {
    && |BatchOutcome(b, entries)| == |b.signals|
    && forall i :: 0 <= i < |b.signals| ==>
         BatchOutcome(b, entries)[i] == b.signals[i].(validation := Some(FateOf(b.signals[i], b, entries)))
  }

  /** Different candidates stand at their own places with their own fates exactly when their identifiers differ. */
  lemma OwnPlacesIff(b: Batch, entries: Entries)
    requires AllDifferent(b.signals)
    ensures OwnPlaces(b, entries) <==> DistinctIds(b.signals)
  {
    hide BatchOutcome, Completed, FateOf;
    if DistinctIds(b.signals) {
      OutcomeAt(b, entries);
    }
    EveryoneIsPlaced(b, entries);
    if OwnPlaces(b, entries) {
      forall i, j | 0 <= i < j < |b.signals| ensures b.signals[i].id != b.signals[j].id {
        assert BatchOutcome(b, entries)[i].(validation := None) == b.signals[i].(validation := None);
        assert BatchOutcome(b, entries)[j].(validation := None) == b.signals[j].(validation := None);
      }
    }
  }

  // ---- What the rules read ----

  /** Some strategy behind the candidate is active; without supporting ones its own is the one behind it. */
  ghost predicate Backed(s: Signal, active: set<string>) {
    || (s.supporting == [] && s.grain.strategy in active)
    || exists i :: 0 <= i < |s.supporting| && s.supporting[i] in active
  }

  ghost predicate Favourable(handling: Handling) {
    handling !in {RequireReview, ContextReject}
  }

  /** The cache holds a verdict on this fingerprint that has time left. */
  ghost predicate Held(s: Signal, r: Round, entries: Entries) {
    r.ttl > 0 && Print(s, r) in entries && r.now < entries[Print(s, r)].expiresAt
  }

  lemma BackedIff(s: Signal, active: set<string>)
    ensures IsActive(s, active) <==> Backed(s, active)
  {
  }

  lemma HeldIff(s: Signal, r: Round, entries: Entries)
    ensures CachedVerdict(s, r, entries).Some? <==> Held(s, r, entries)
    ensures Held(s, r, entries) ==> CachedVerdict(s, r, entries).value == entries[Print(s, r)]
  {
    hide Print;
  }

  /** What validates a candidate: an active strategy, and a clear context, or an unexpired cached verdict under its own
      fingerprint that approves, or an exact reply that approves it by name. */
  ghost predicate MayApprove(s: Signal, b: Batch, entries: Entries) {
    && Backed(s, b.round.active)
    && (|| !b.round.assess(s).required
        || (Held(s, b.round, entries) && Favourable(entries[Print(s, b.round)].review.handling))
        || (!Held(s, b.round, entries) && ApprovedByQwen(s, b, entries)))
  }

  /** `t` is the candidate `s` of the batch with nothing but a validation added, which it earned if it is an
      approval. */
  ghost predicate Completes(s: Signal, t: Signal, b: Batch, entries: Entries) {
    && s in b.signals && t.validation.Some? && t == s.(validation := t.validation)
    && (Approved(t) ==> MayApprove(s, b, entries))
  }

  ghost predicate Sound(completed: map<string, Signal>, b: Batch, entries: Entries) {
    forall id :: id in completed ==> completed[id].id == id && exists s :: Completes(s, completed[id], b, entries)
  }

  lemma {:induction false} CompletingIsSound(before: map<string, Signal>, group: seq<Signal>,
                                             rule: Signal -> Validation, b: Batch, entries: Entries)
    requires Sound(before, b, entries)
    requires forall s :: s in group ==> s in b.signals && (rule(s).outcome.Approve? ==> MayApprove(s, b, entries))
    ensures Sound(CompleteAll(before, group, rule), b, entries)
    decreases |group|
  {
    if group != [] {
      var front, last := group[..|group| - 1], group[|group| - 1];
      assert group == front + [last];
      CompletingIsSound(before, front, rule, b, entries);
      hide MayApprove;
      assert Completes(last, WithValidation(last, rule(last)), b, entries);
    }
  }

  lemma FailingIsSound(before: map<string, Signal>, misses: seq<Signal>, b: Batch, entries: Entries)
    requires Sound(before, b, entries) && Within(misses, b.signals)
    ensures Sound(FailAll(before, misses), b, entries)
  {
    FailAllMeans(before, misses);
    hide FailAll, MayApprove;
    var now := FailAll(before, misses);
    forall id | id in now ensures now[id].id == id && exists s :: Completes(s, now[id], b, entries) {
      if id !in before {
        var s :| s in misses && s.id == id && now[id] == WithValidation(s, FAILED);
        assert Completes(s, now[id], b, entries);
      }
    }
  }

  lemma RulesAreEarned(b: Batch, entries: Entries)
    ensures forall s :: s in Filter(b.signals, Clear(b.round)) ==>
      s in b.signals && (ByTriage(b.round)(s).outcome.Approve? ==> MayApprove(s, b, entries))
    ensures forall s :: s in Filter(Queue(b.signals, b.round), Hit(b.round, entries)) ==>
      s in b.signals && (ByCache(b.round, entries)(s).outcome.Approve? ==> MayApprove(s, b, entries))
    ensures Within(MissesOf(b, entries), b.signals) && Within(DeferredOf(b, entries), b.signals)
    ensures ReviewsOf(b, entries).Some? ==> forall s :: s in MissesOf(b, entries) ==>
      (ByReview(ReviewsOf(b, entries).value)(s).outcome.Approve? ==> MayApprove(s, b, entries))
  {
    var r, queue := b.round, Queue(b.signals, b.round);
    FilterMembers(b.signals, Clear(r));
    FilterMembers(queue, Hit(r, entries));
    FilterMembers(queue, Missed(r, entries));
    QueueMembers(b.signals, r);
    forall s | s in MissesOf(b, entries) && ReviewsOf(b, entries).Some?
      ensures ByReview(ReviewsOf(b, entries).value)(s).outcome.Approve? ==> ApprovedByQwen(s, b, entries)
    {
      QwenApproves(s, b, entries);
    }
    forall s ensures (IsActive(s, r.active) <==> Backed(s, r.active)) {
      BackedIff(s, r.active);
    }
    forall s
      ensures CachedVerdict(s, r, entries).Some? <==> Held(s, r, entries)
      ensures Held(s, r, entries) ==> CachedVerdict(s, r, entries).value == entries[Print(s, r)]
    {
      HeldIff(s, r, entries);
    }
    hide Backed, Held, Print;
    hide Filter, Queue, CachedVerdict, IsActive, ApprovedByQwen, ReviewsOf;
  }

  lemma QwenApproves(s: Signal, b: Batch, entries: Entries)
    requires s in MissesOf(b, entries) && ReviewsOf(b, entries).Some?
    ensures ByReview(ReviewsOf(b, entries).value)(s).outcome.Approve? ==> ApprovedByQwen(s, b, entries)
  {
    ReviewsCoverMisses(b, entries);
    assert s.id in Ids(MissesOf(b, entries));
    ItemOf(b.answer.items, s.id);
    hide MissesOf;
  }

  lemma CompletedIsSound(b: Batch, entries: Entries)
    ensures Sound(Completed(b, entries), b, entries)
  {
    var r, queue := b.round, Queue(b.signals, b.round);
    var misses, deferred, reviews := MissesOf(b, entries), DeferredOf(b, entries), ReviewsOf(b, entries);
    var hits := Filter(queue, Hit(r, entries));
    RulesAreEarned(b, entries);
    hide Sound, MayApprove, CompleteAll, FailAll, Filter, Queue, Misses, LeftOver, CachedVerdict, ParsedAnswer;
    assert Sound(map[], b, entries) by { NothingIsSound(b, entries); }
    CompletingIsSound(map[], Filter(b.signals, Clear(r)), ByTriage(r), b, entries);
    var triaged := CompleteAll(map[], Filter(b.signals, Clear(r)), ByTriage(r));
    CompletingIsSound(triaged, hits, ByCache(r, entries), b, entries);
    var looked := CompleteAll(triaged, hits, ByCache(r, entries));
    CompletingIsSound(looked, deferred, Always(Validation(Deferred, 0.0, Capacity)), b, entries);
    var settled := CompleteAll(looked, deferred, Always(Validation(Deferred, 0.0, Capacity)));
    if reviews.Some? {
      CompletingIsSound(settled, misses, ByReview(reviews.value), b, entries);
    }
    FailingIsSound(if reviews.Some? then CompleteAll(settled, misses, ByReview(reviews.value)) else settled, misses, b,
                   entries);
  }

  lemma NothingIsSound(b: Batch, entries: Entries)
    ensures Sound(map[], b, entries)
  {
  }

  lemma EveryoneIsCompleted(b: Batch, entries: Entries)
    ensures Ids(b.signals) <= Completed(b, entries).Keys
  {
    var r, queue := b.round, Queue(b.signals, b.round);
    var misses, deferred, reviews := MissesOf(b, entries), DeferredOf(b, entries), ReviewsOf(b, entries);
    var clear, hits := Filter(b.signals, Clear(r)), Filter(queue, Hit(r, entries));
    CompleteAllKeys(map[], clear, ByTriage(r));
    var triaged := CompleteAll(map[], clear, ByTriage(r));
    CompleteAllKeys(triaged, hits, ByCache(r, entries));
    var looked := CompleteAll(triaged, hits, ByCache(r, entries));
    CompleteAllKeys(looked, deferred, Always(Validation(Deferred, 0.0, Capacity)));
    var settled := CompleteAll(looked, deferred, Always(Validation(Deferred, 0.0, Capacity)));
    if reviews.Some? {
      CompleteAllKeys(settled, misses, ByReview(reviews.value));
    }
    FailAllMeans(if reviews.Some? then CompleteAll(settled, misses, ByReview(reviews.value)) else settled, misses);
    hide CompleteAll, FailAll, ParsedAnswer;
    assert Ids(clear) + Ids(hits) + Ids(misses) + Ids(deferred) <= Completed(b, entries).Keys;
    forall s | s in b.signals ensures s.id in Ids(clear) + Ids(hits) + Ids(misses) + Ids(deferred) {
      SomewhereInBatch(s, b, entries);
    }
  }

  lemma SomewhereInBatch(s: Signal, b: Batch, entries: Entries)
    requires s in b.signals
    ensures || s in Filter(b.signals, Clear(b.round)) || s in Filter(Queue(b.signals, b.round), Hit(b.round, entries))
            || s in MissesOf(b, entries) || s in DeferredOf(b, entries)
  {
    hide *;
    var r, queue := b.round, Queue(b.signals, b.round);
    FilterMembers(b.signals, Clear(r));
    QueueMembers(b.signals, r);
    FilterMembers(queue, Hit(r, entries));
    FilterMembers(queue, Missed(r, entries));
    ClearOrQueued(s, r, entries);
    CutInTwo(b, entries);
  }

  lemma ClearOrQueued(s: Signal, r: Round, entries: Entries)
    ensures Clear(r)(s) <==> !NeedsReview(r)(s)
    ensures Missed(r, entries)(s) <==> !Hit(r, entries)(s)
  {
  }

  lemma CutInTwo(b: Batch, entries: Entries)
    ensures forall s :: s in Filter(Queue(b.signals, b.round), Missed(b.round, entries)) <==>
      s in MissesOf(b, entries) || s in DeferredOf(b, entries)
  {
    var uncached := Filter(Queue(b.signals, b.round), Missed(b.round, entries));
    assert uncached == MissesOf(b, entries) + DeferredOf(b, entries);
    hide Filter, Queue, Misses, LeftOver;
  }

  /** Whatever identifiers the candidates carry, every place of the batch is filled by a candidate of the batch with
      that place's identifier, changed by its validation alone; and whoever is validated earned it. */
  lemma PlacesAreFilled(b: Batch, entries: Entries)
    ensures |BatchOutcome(b, entries)| == |b.signals|
    ensures forall i :: 0 <= i < |b.signals| ==>
      && BatchOutcome(b, entries)[i].id == b.signals[i].id
      && exists s :: Completes(s, BatchOutcome(b, entries)[i], b, entries)
  {
    hide *;
    EveryoneIsPlaced(b, entries);
    forall i | 0 <= i < |b.signals|
      ensures BatchOutcome(b, entries)[i].id == b.signals[i].id
      ensures exists s :: Completes(s, BatchOutcome(b, entries)[i], b, entries)
    {
      SoundAt(b, entries, b.signals[i].id);
    }
  }

  lemma EveryoneIsPlaced(b: Batch, entries: Entries)
    ensures |BatchOutcome(b, entries)| == |b.signals|
    ensures forall i :: 0 <= i < |b.signals| ==>
      b.signals[i].id in Completed(b, entries) && BatchOutcome(b, entries)[i] == Completed(b, entries)[b.signals[i].id]
  {
    EveryoneIsCompleted(b, entries);
    hide Completed;
    GatherAt(Completed(b, entries), b.signals);
  }

  lemma SoundAt(b: Batch, entries: Entries, id: string)
    requires id in Completed(b, entries)
    ensures var t := Completed(b, entries)[id]; t.id == id && exists s :: Completes(s, t, b, entries)
  {
    hide Completed, Completes;
    CompletedIsSound(b, entries);
  }

  lemma {:induction false} SplitCounts(xs: seq<Signal>)
    ensures |Filter(xs, Approved)| + |Filter(xs, NotApproved)| == |xs|
    ensures Ids(Filter(xs, Approved)) + Ids(Filter(xs, NotApproved)) == Ids(xs)
  {
    if xs != [] {
      SplitCounts(xs[..|xs| - 1]);
      FilterMembers(xs, Approved);
      FilterMembers(xs, NotApproved);
    }
    forall id ensures id in Ids(Filter(xs, Approved)) + Ids(Filter(xs, NotApproved)) <==> id in Ids(xs) {
      FilterMembers(xs, Approved);
      FilterMembers(xs, NotApproved);
    }
  }

  /** Validated and rejected partition the batch: as many places and the same identifiers as the batch, and with
      distinct identifiers every candidate in exactly one of them, once. */
  lemma BatchIsPartitioned(b: Batch, entries: Entries)
    ensures var done := BatchOutcome(b, entries);
      var validated, rejected := Filter(done, Approved), Filter(done, NotApproved);
      && |validated| + |rejected| == |b.signals|
      && Ids(validated) + Ids(rejected) == Ids(b.signals)
      && (DistinctIds(b.signals) ==> Ids(validated) !! Ids(rejected) && DistinctIds(validated) && DistinctIds(rejected))
  {
    var done := BatchOutcome(b, entries);
    PlacesAreFilled(b, entries);
    hide BatchOutcome, Filter;
    SameIds(b.signals, done);
    SplitCounts(done);
    if DistinctIds(b.signals) {
      FilterDistinct(done, Approved);
      FilterDistinct(done, NotApproved);
      FilterMembers(done, Approved);
      FilterMembers(done, NotApproved);
    }
  }

  lemma SameIds(signals: seq<Signal>, done: seq<Signal>)
    requires |done| == |signals| && forall i :: 0 <= i < |done| ==> done[i].id == signals[i].id
    ensures Ids(done) == Ids(signals)
    ensures DistinctIds(signals) ==> DistinctIds(done)
  {
    forall id ensures id in Ids(done) <==> id in Ids(signals) {
      if id in Ids(signals) {
        var i :| 0 <= i < |signals| && signals[i].id == id;
        assert done[i] in done;
      }
      if id in Ids(done) {
        var i :| 0 <= i < |done| && done[i].id == id;
        assert signals[i] in signals;
      }
    }
  }

  ghost predicate ApprovedByQwen(s: Signal, b: Batch, entries: Entries) {
    && s in MissesOf(b, entries)
    && b.answer.Replied? && Exact(b.answer.items, Ids(MissesOf(b, entries)))
    && exists item :: item in b.answer.items && item.Item? && item.id == s.id && Favourable(item.review.handling)
  }

  /** The validation keeps to a review: its outcome to the handling, its confidence to the given one, cut to 0..1. */
  ghost predicate Follows(v: Validation, handling: Handling, confidence: real, basis: Basis) {
    && v.basis == basis
    && v.outcome == (if Favourable(handling) then Approve else Reject)
    && Cut(confidence, v.confidence)
  }

  /** The review is what this item of a reply says about the candidate. */
  ghost predicate SaysOf(items: seq<Item>, item: Item, s: Signal, review: Review) {
    && item in items && item.Item? && item.id == s.id
    && review.handling == item.review.handling && Cut(item.review.confidence, review.confidence)
  }

  ghost predicate FollowsReply(v: Validation, s: Signal, items: seq<Item>) {
    exists item :: item in items && item.Item? && item.id == s.id
      && Follows(v, item.review.handling, item.review.confidence, Reviewed)
  }

  /** The whole of what happens to a candidate of a batch with distinct identifiers, from what it carries, what the
      cache holds and what Qwen replies. */
  ghost predicate FateFits(v: Validation, s: Signal, b: Batch, entries: Entries) {
    if !Backed(s, b.round.active) then v == Validation(Reject, 1.0, NotActive)
    else if !b.round.assess(s).required then v == Validation(Approve, 1.0, ClearContext)
    else if Held(s, b.round, entries) then
      var review := entries[Print(s, b.round)].review;
      && v.basis == Cached && v.confidence == review.confidence
      && v.outcome == if Favourable(review.handling) then Approve else Reject
    else if s in DeferredOf(b, entries) then v == Validation(Deferred, 0.0, Capacity)
    else if b.answer.Replied? && Exact(b.answer.items, Ids(MissesOf(b, entries))) then
      s in MissesOf(b, entries) && FollowsReply(v, s, b.answer.items)
    else s in MissesOf(b, entries) && v == Validation(Reject, 0.0, Unreviewed)
  }

  lemma FateOnFields(b: Batch, entries: Entries, s: Signal)
    requires DistinctIds(b.signals) && s in b.signals
    ensures FateFits(FateOf(s, b, entries), s, b, entries)
  {
    BackedIff(s, b.round.active);
    HeldIff(s, b.round, entries);
    SentOrDeferred(b, entries, s);
    hide Backed, Held, Print, CachedVerdict, IsActive, MissesOf, DeferredOf, ReviewsOf, FollowsReply, Favourable;
    if s in MissesOf(b, entries) {
      WhatIsRead(b, entries, s);
      if ReviewsOf(b, entries).Some? {
        ReplyIsFollowed(b, entries, s);
      }
    }
    HandlingDecides();
  }

  lemma HandlingDecides()
    ensures forall review: Review :: review.Approves() <==> Favourable(review.handling)
  {
  }

  lemma SentOrDeferred(b: Batch, entries: Entries, s: Signal)
    requires DistinctIds(b.signals) && s in b.signals
    ensures Uncached(s, b.round, entries) <==> s in MissesOf(b, entries) || s in DeferredOf(b, entries)
    ensures !(s in MissesOf(b, entries) && s in DeferredOf(b, entries))
  {
    MissesAndLeftOver(b.signals, b.round, entries);
    Halves(MissesOf(b, entries), DeferredOf(b, entries), b.signals);
    hide Misses, LeftOver, Queue, DistinctIds, Uncached, Within;
  }

  lemma WhatIsRead(b: Batch, entries: Entries, s: Signal)
    requires s in MissesOf(b, entries)
    ensures ReviewsOf(b, entries).Some? <==> b.answer.Replied? && Exact(b.answer.items, Ids(MissesOf(b, entries)))
  {
    hide MissesOf, Exact;
  }

  lemma ItemBehind(b: Batch, entries: Entries, s: Signal)
    requires s in MissesOf(b, entries) && ReviewsOf(b, entries).Some?
    ensures b.answer.Replied? && s.id in ReviewsOf(b, entries).value
    ensures exists item :: SaysOf(b.answer.items, item, s, ReviewsOf(b, entries).value[s.id])
  {
    ReviewsCoverMisses(b, entries);
    assert s.id in Ids(MissesOf(b, entries));
    hide MissesOf, Parsed;
    var items := b.answer.items;
    ReviewMapMeans(items);
    var k :| 0 <= k < |items| && items[k].Item? && items[k].id == s.id;
    assert SaysOf(items, items[k], s, Clamped(items[k].review));
  }

  lemma ReplyIsFollowed(b: Batch, entries: Entries, s: Signal)
    requires s in MissesOf(b, entries) && ReviewsOf(b, entries).Some?
    ensures s.id in ReviewsOf(b, entries).value
    ensures FollowsReply(Judged(ReviewsOf(b, entries).value[s.id], Reviewed), s, b.answer.items)
  {
    ItemBehind(b, entries, s);
    hide MissesOf, ReviewsOf, Cut;
    var item :| SaysOf(b.answer.items, item, s, ReviewsOf(b, entries).value[s.id]);
  }

  /** With distinct identifiers a candidate is validated exactly when it may be. No other answer, and no failure,
      validates anything. */
  lemma ApprovalIsEarned(b: Batch, entries: Entries, s: Signal)
    requires DistinctIds(b.signals) && s in b.signals
    ensures FateOf(s, b, entries).outcome.Approve? <==> MayApprove(s, b, entries)
  {
    FateOnFields(b, entries, s);
    SentOrDeferred(b, entries, s);
    BackedIff(s, b.round.active);
    HeldIff(s, b.round, entries);
    hide Backed, Held, Print, CachedVerdict, IsActive, MissesOf, DeferredOf, FateOf, Favourable;
    if b.answer.Replied? && s in MissesOf(b, entries) && Exact(b.answer.items, Ids(MissesOf(b, entries))) {
      OneItemEach(b.answer.items, s.id);
    }
  }

  lemma OneItemEach(items: seq<Item>, id: string)
    requires NamedOnce(items)
    ensures forall x, y :: x in items && y in items && x.Item? && y.Item? && x.id == id == y.id ==> x == y
  {
  }

  lemma ItemOf(items: seq<Item>, id: string)
    requires NamedOnce(items) && id in ItemIds(items)
    ensures id in ReviewMap(items)
    ensures ReviewMap(items)[id].Approves() <==>
      exists item :: item in items && item.Item? && item.id == id && Favourable(item.review.handling)
  {
    ReviewMapMeans(items);
    var k :| 0 <= k < |items| && items[k].id == id;
    assert items[k] in items;
  }

  /** At most `capacity` candidates are sent for review, the queue is served in order and nobody is deferred while there
      is room; the uncached queue members are exactly the reviewed and the deferred ones. */
  lemma CapacityIsRespected(b: Batch, entries: Entries)
    requires DistinctIds(b.signals)
    ensures var ms, ds := MissesOf(b, entries), DeferredOf(b, entries);
      var room := if b.round.capacity > 0 then b.round.capacity else 0;
      && |ms| <= room && (ds != [] ==> |ms| == room)
      && (forall m, d :: m in ms && d in ds ==> Precedes(m, d, b.round))
      && (forall s :: s in b.signals ==> (s in ms || s in ds <==> Uncached(s, b.round, entries)))
      && (forall s :: s in ds ==> s !in ms && FateOf(s, b, entries).outcome.Deferred?)
  {
    hide *;
    var ms, ds := MissesOf(b, entries), DeferredOf(b, entries);
    RoomIsUsed(b, entries);
    UncachedAreSplit(b, entries);
    QueueIsServedInOrder(b, entries);
    AcrossTheCut(ms, ds, b.round);
    DeferredAreDeferred(b, entries);
  }

  lemma RoomIsUsed(b: Batch, entries: Entries)
    ensures var ms, ds := MissesOf(b, entries), DeferredOf(b, entries);
      var room := if b.round.capacity > 0 then b.round.capacity else 0;
      |ms| <= room && (ds != [] ==> |ms| == room)
  {
    hide Filter, Queue;
  }

  lemma UncachedAreSplit(b: Batch, entries: Entries)
    requires DistinctIds(b.signals)
    ensures forall s :: s in b.signals ==>
      (s in MissesOf(b, entries) || s in DeferredOf(b, entries) <==> Uncached(s, b.round, entries))
  {
    MissesAndLeftOver(b.signals, b.round, entries);
    Halves(MissesOf(b, entries), DeferredOf(b, entries), b.signals);
    hide Misses, LeftOver, Queue, DistinctIds, Uncached, Within;
  }

  lemma QueueIsServedInOrder(b: Batch, entries: Entries)
    ensures InOrder(MissesOf(b, entries) + DeferredOf(b, entries), b.round)
  {
    hide InOrder, Filter, Before;
    SortedIsOrderedPermutation(Filter(b.signals, NeedsReview(b.round)), b.round);
    FilterInOrder(Queue(b.signals, b.round), Missed(b.round, entries), b.round);
    assert MissesOf(b, entries) + DeferredOf(b, entries) == Filter(Queue(b.signals, b.round), Missed(b.round, entries));
  }

  lemma DeferredAreDeferred(b: Batch, entries: Entries)
    requires DistinctIds(b.signals)
    ensures forall s :: s in DeferredOf(b, entries) ==>
      s !in MissesOf(b, entries) && FateOf(s, b, entries).outcome.Deferred?
  {
    MissesAndLeftOver(b.signals, b.round, entries);
    Halves(MissesOf(b, entries), DeferredOf(b, entries), b.signals);
    hide CachedVerdict, Misses, LeftOver, Queue, IsActive, DistinctIds;
  }

  lemma AcrossTheCut(ms: seq<Signal>, ds: seq<Signal>, r: Round)
    requires InOrder(ms + ds, r)
    ensures forall m, d :: m in ms && d in ds ==> Precedes(m, d, r)
  {
    hide Precedes;
    forall m, d | m in ms && d in ds ensures Precedes(m, d, r) {
      var i :| 0 <= i < |ms| && ms[i] == m;
      var j :| 0 <= j < |ds| && ds[j] == d;
      assert (ms + ds)[i] == m && (ms + ds)[|ms| + j] == d;
      BeforeMeans(m, d, r);
    }
  }

  lemma {:induction false} FilterInOrder(q: seq<Signal>, p: Signal -> bool, r: Round)
    requires InOrder(q, r)
    ensures InOrder(Filter(q, p), r)
  {
    if q != [] {
      var front, last := q[..|q| - 1], q[|q| - 1];
      FilterInOrder(front, p, r);
      FilterMembers(front, p);
      var kept := Filter(front, p);
      forall k | 0 <= k < |kept| ensures Before(kept[k], last, r) {
        assert kept[k] in kept;
        var i :| 0 <= i < |front| && front[i] == kept[k];
        assert q[i] == kept[k];
      }
      hide Before;
    }
  }

  lemma {:induction false} LookupsOnlyForget(entries: Entries, queue: seq<Signal>, r: Round)
    ensures forall f :: f in AfterLookups(entries, queue, r) ==>
      f in entries && AfterLookups(entries, queue, r)[f] == entries[f]
  {
    if queue != [] && r.ttl > 0 {
      LookupsOnlyForget(entries, queue[..|queue| - 1], r);
      hide Print;
    }
  }

  /** Some queued candidate has this fingerprint. */
  ghost predicate Asked(queue: seq<Signal>, r: Round, f: MaterialState) {
    exists s :: s in queue && Print(s, r) == f
  }

  ghost predicate FoundExpired(entries: Entries, queue: seq<Signal>, r: Round, f: MaterialState) {
    r.ttl > 0 && f in entries && r.now >= entries[f].expiresAt && Asked(queue, r, f)
  }

  lemma {:induction false} LookupsForgetExactly(entries: Entries, queue: seq<Signal>, r: Round, f: MaterialState)
    ensures f in AfterLookups(entries, queue, r) <==> f in entries && !FoundExpired(entries, queue, r, f)
    ensures f in AfterLookups(entries, queue, r) ==> AfterLookups(entries, queue, r)[f] == entries[f]
    decreases |queue|
  {
    hide Print;
    if queue != [] && r.ttl > 0 {
      var front, last := queue[..|queue| - 1], queue[|queue| - 1];
      assert queue == front + [last];
      LookupsForgetExactly(entries, front, r, f);
      assert Asked(queue, r, f) <==> Asked(front, r, f) || Print(last, r) == f;
      hide Asked;
    }
  }

  /** The verdict is one of these reviews, given to a candidate with this fingerprint. */
  ghost predicate FiledBy(misses: seq<Signal>, reviews: map<string, Review>, r: Round, at: int, f: MaterialState,
                          v: Verdict) {
    exists s :: s in misses && Print(s, r) == f && s.id in reviews && v == MakeVerdict(f, reviews[s.id], r.ttl, at)
  }

  lemma FiledByMore(misses: seq<Signal>, s: Signal, reviews: map<string, Review>, r: Round, at: int, f: MaterialState,
                    v: Verdict)
    ensures FiledBy(misses, reviews, r, at, f, v) ==> FiledBy(misses + [s], reviews, r, at, f, v)
    ensures Print(s, r) == f && s.id in reviews && v == MakeVerdict(f, reviews[s.id], r.ttl, at) ==>
      FiledBy(misses + [s], reviews, r, at, f, v)
    ensures Asked(misses + [s], r, f) <==> Asked(misses, r, f) || Print(s, r) == f
  {
    assert s in misses + [s];
    hide Print, MakeVerdict;
  }

  lemma {:induction false} ReviewsFile(entries: Entries, misses: seq<Signal>, reviews: map<string, Review>,
                                       r: Round, at: int, f: MaterialState)
    requires Ids(misses) <= reviews.Keys
    ensures var now := AfterReviews(entries, misses, reviews, r, at);
      if r.ttl > 0 && Asked(misses, r, f) then f in now && FiledBy(misses, reviews, r, at, f, now[f])
      else (f in now <==> f in entries) && (f in now ==> now[f] == entries[f])
    decreases |misses|
  {
    if misses != [] && r.ttl > 0 {
      var front, last := misses[..|misses| - 1], misses[|misses| - 1];
      assert misses == front + [last];
      assert last in misses && last.id in Ids(misses);
      ReviewsFile(entries, front, reviews, r, at, f);
      var now := AfterReviews(entries, misses, reviews, r, at);
      var before := AfterReviews(entries, front, reviews, r, at);
      hide Print, MakeVerdict, Ids;
      assert now == before[Print(last, r) := MakeVerdict(Print(last, r), reviews[last.id], r.ttl, at)];
      hide AfterReviews;
      if f in now {
        FiledByMore(front, last, reviews, r, at, f, now[f]);
      } else {
        FiledByMore(front, last, reviews, r, at, f, MakeVerdict(f, reviews[last.id], r.ttl, at));
      }
      hide Asked, FiledBy;
    }
  }

  /** The verdict is what an item of the reply says about a reviewed candidate with this fingerprint, good for the time
      to live. */
  ghost predicate FiledFrom(b: Batch, entries: Entries, f: MaterialState, v: Verdict) {
    && b.answer.Replied?
    && v.fingerprint == f && v.reviewedAt == b.reviewedAt && v.expiresAt == b.reviewedAt + b.round.ttl
    && exists s, item ::
         s in MissesOf(b, entries) && Print(s, b.round) == f && SaysOf(b.answer.items, item, s, v.review)
  }

  lemma FiledByReply(b: Batch, entries: Entries, f: MaterialState, v: Verdict)
    requires ReviewsOf(b, entries).Some?
    requires FiledBy(MissesOf(b, entries), ReviewsOf(b, entries).value, b.round, b.reviewedAt, f, v)
    ensures FiledFrom(b, entries, f, v)
  {
    hide MissesOf, ReviewsOf, Print, SaysOf;
    var reviews := ReviewsOf(b, entries).value;
    var s :| s in MissesOf(b, entries) && Print(s, b.round) == f && s.id in reviews
             && v == MakeVerdict(f, reviews[s.id], b.round.ttl, b.reviewedAt);
    ItemBehind(b, entries, s);
    var item :| SaysOf(b.answer.items, item, s, reviews[s.id]);
    CutTwice(b.answer.items, item, s, reviews[s.id]);
    assert SaysOf(b.answer.items, item, s, v.review);
  }

  lemma CutTwice(items: seq<Item>, item: Item, s: Signal, review: Review)
    requires SaysOf(items, item, s, review)
    ensures SaysOf(items, item, s, Review(review.handling, Clamp01(review.confidence)))
  {
  }

  /** How a batch moves the cache on, fingerprint by fingerprint: an answered review files the verdict of a reviewed
      candidate with that fingerprint, good for the time to live; a lookup removes what it finds expired; everything
      else stays. */
  lemma CacheMovesOn(b: Batch, entries: Entries, f: MaterialState)
    ensures var next, reviews, r := NextEntries(b, entries), ReviewsOf(b, entries), b.round;
      if reviews.Some? && r.ttl > 0 && Asked(MissesOf(b, entries), r, f) then
        f in next && FiledFrom(b, entries, f, next[f])
      else
        && (f in next <==> f in entries && !FoundExpired(entries, Queue(b.signals, r), r, f))
        && (f in next ==> next[f] == entries[f])
  {
    var looked := AfterLookups(entries, Queue(b.signals, b.round), b.round);
    LookupsForgetExactly(entries, Queue(b.signals, b.round), b.round, f);
    if ReviewsOf(b, entries).Some? {
      ReviewsCoverMisses(b, entries);
      ReviewsFile(looked, MissesOf(b, entries), ReviewsOf(b, entries).value, b.round, b.reviewedAt, f);
      if b.round.ttl > 0 && Asked(MissesOf(b, entries), b.round, f) {
        FiledByReply(b, entries, f, NextEntries(b, entries)[f]);
      }
    }
    hide FiledFrom, Asked, FiledBy, FoundExpired, AfterLookups, AfterReviews, ReviewsOf, MissesOf, Queue, Ids;
  }

  /** An inexact, malformed or absent reply rejects every candidate that was sent for review, and caches nothing. */
  lemma FailuresReject(b: Batch, entries: Entries)
    requires DistinctIds(b.signals)
    requires b.answer.Failed? || !Exact(b.answer.items, Ids(MissesOf(b, entries)))
    ensures forall s :: s in MissesOf(b, entries) ==> FateOf(s, b, entries) == FAILED
    ensures forall f :: f in NextEntries(b, entries) ==> f in entries && NextEntries(b, entries)[f] == entries[f]
  {
    LookupsOnlyForget(entries, Queue(b.signals, b.round), b.round);
    assert ReviewsOf(b, entries).None?;
    assert NextEntries(b, entries) == AfterLookups(entries, Queue(b.signals, b.round), b.round);
    hide NextEntries, AfterLookups;
    MissesAreUncached(b, entries);
    hide *;
  }

  lemma MissesAreUncached(b: Batch, entries: Entries)
    requires DistinctIds(b.signals)
    ensures forall s :: s in MissesOf(b, entries) ==> s in b.signals && Uncached(s, b.round, entries)
    ensures ReviewsOf(b, entries).None? ==>
      forall s :: s in MissesOf(b, entries) ==> FateOf(s, b, entries) == FAILED
  {
    MissesAndLeftOver(b.signals, b.round, entries);
    Halves(MissesOf(b, entries), DeferredOf(b, entries), b.signals);
    hide CachedVerdict, Misses, LeftOver, Queue, IsActive, DistinctIds;
  }

  // ---- Over runs of batches ----

  ghost function After(batches: seq<Batch>): Entries {
    if batches == [] then map[] else NextEntries(batches[|batches| - 1], After(batches[..|batches| - 1]))
  }

  /** The verdict is what Qwen said in this batch about a candidate of the batch with this fingerprint. */
  ghost predicate GivenIn(b: Batch, entries: Entries, s: Signal, v: Verdict) {
    && s in MissesOf(b, entries)
    && ReviewsOf(b, entries).Some? && s.id in ReviewsOf(b, entries).value
    && v == MakeVerdict(Print(s, b.round), ReviewsOf(b, entries).value[s.id], b.round.ttl, b.reviewedAt)
  }

  ghost predicate Given(batches: seq<Batch>, v: Verdict) {
    exists j, s :: 0 <= j < |batches| && GivenIn(batches[j], After(batches[..j]), s, v)
  }

  /** Every verdict ever held in the cache was given by Qwen in some batch to a candidate with exactly that
      fingerprint. */
  lemma {:induction false} VerdictsAreGiven(batches: seq<Batch>, f: MaterialState)
    requires f in After(batches)
    ensures After(batches)[f].fingerprint == f && Given(batches, After(batches)[f])
    decreases |batches|
  {
    hide NextEntries, GivenIn, Given;
    var front, b := batches[..|batches| - 1], batches[|batches| - 1];
    assert front + [b] == batches;
    var v := After(batches)[f];
    NextVerdict(b, After(front), f);
    if f in After(front) && v == After(front)[f] {
      VerdictsAreGiven(front, f);
      GivenLater(front, b, v);
    } else {
      GivenLast(front, b, v);
    }
  }

  lemma GivenLast(front: seq<Batch>, b: Batch, v: Verdict)
    requires exists s :: GivenIn(b, After(front), s, v)
    ensures Given(front + [b], v)
  {
    hide GivenIn, After;
    var s :| GivenIn(b, After(front), s, v);
    assert (front + [b])[|front|] == b && (front + [b])[..|front|] == front;
  }

  lemma GivenLater(front: seq<Batch>, b: Batch, v: Verdict)
    requires Given(front, v)
    ensures Given(front + [b], v)
  {
    hide GivenIn, After;
    var j, s :| 0 <= j < |front| && GivenIn(front[j], After(front[..j]), s, v);
    assert (front + [b])[j] == front[j] && (front + [b])[..j] == front[..j];
  }

  lemma NextVerdict(b: Batch, entries: Entries, f: MaterialState)
    requires f in NextEntries(b, entries)
    ensures var v := NextEntries(b, entries)[f];
      || (f in entries && v == entries[f])
      || (v.fingerprint == f && exists s :: GivenIn(b, entries, s, v))
  {
    var looked := AfterLookups(entries, Queue(b.signals, b.round), b.round);
    LookupsOnlyForget(entries, Queue(b.signals, b.round), b.round);
    var reviews := ReviewsOf(b, entries);
    if reviews.Some? && Ids(MissesOf(b, entries)) <= reviews.value.Keys {
      FiledUnderOwnPrint(looked, MissesOf(b, entries), reviews.value, b.round, b.reviewedAt, f);
      var v := NextEntries(b, entries)[f];
      hide Print, MakeVerdict, AfterLookups, AfterReviews, ReviewsOf, MissesOf;
      if !(f in looked && v == looked[f]) {
        var s :| s in MissesOf(b, entries) && s.id in reviews.value
                 && v == MakeVerdict(Print(s, b.round), reviews.value[s.id], b.round.ttl, b.reviewedAt);
        assert GivenIn(b, entries, s, v);
      }
    } else {
      assert NextEntries(b, entries) == looked;
    }
  }

  lemma {:induction false} FiledUnderOwnPrint(entries: Entries, misses: seq<Signal>, reviews: map<string, Review>,
                                              r: Round, at: int, f: MaterialState)
    requires Ids(misses) <= reviews.Keys && f in AfterReviews(entries, misses, reviews, r, at)
    ensures var v := AfterReviews(entries, misses, reviews, r, at)[f];
      || (f in entries && v == entries[f])
      || (v.fingerprint == f
          && exists s :: s in misses && s.id in reviews && v == MakeVerdict(Print(s, r), reviews[s.id], r.ttl, at))
    decreases |misses|
  {
    if misses != [] && r.ttl > 0 {
      var front, last := misses[..|misses| - 1], misses[|misses| - 1];
      assert misses == front + [last];
      if f != Print(last, r) {
        FiledUnderOwnPrint(entries, front, reviews, r, at, f);
      }
      assert last in misses && last.id in reviews;
      hide Print;
    }
  }

  /** A verdict is only ever reused for a candidate like the one it was given to: a candidate validated from the cache
      has an earlier counterpart that Qwen approved, with the same fingerprint and within the time to live. */
  lemma ReuseIsEarned(batches: seq<Batch>, b: Batch, s: Signal)
    requires Held(s, b.round, After(batches))
    requires Favourable(After(batches)[Print(s, b.round)].review.handling)
    ensures exists j, t :: 0 <= j < |batches| && SoundReuse(batches[j], After(batches[..j]), t, b, s)
  {
    var v := After(batches)[Print(s, b.round)];
    VerdictsAreGiven(batches, Print(s, b.round));
    hide After, CachedVerdict, Print;
    var j, t :| 0 <= j < |batches| && GivenIn(batches[j], After(batches[..j]), t, v);
    ReuseOf(batches[j], After(batches[..j]), t, b, s, v);
  }

  lemma ReuseOf(then_: Batch, entries: Entries, t: Signal, now: Batch, s: Signal, v: Verdict)
    requires GivenIn(then_, entries, t, v) && Favourable(v.review.handling)
    requires v.fingerprint == Print(s, now.round) && now.round.now < v.expiresAt
    ensures SoundReuse(then_, entries, t, now, s)
  {
    ApprovedThen(then_, entries, t, v);
    hide ApprovedByQwen, Print, MissesOf, ReviewsOf;
  }

  ghost predicate SoundReuse(then_: Batch, entries: Entries, t: Signal, now: Batch, s: Signal) {
    && ApprovedByQwen(t, then_, entries)
    && Print(t, then_.round) == Print(s, now.round)
    && now.round.now < then_.reviewedAt + then_.round.ttl
  }

  lemma ApprovedThen(b: Batch, entries: Entries, t: Signal, v: Verdict)
    requires GivenIn(b, entries, t, v) && Favourable(v.review.handling)
    ensures ApprovedByQwen(t, b, entries)
  {
    ReviewsCoverMisses(b, entries);
    ReviewMapMeans(b.answer.items);
    ItemOf(b.answer.items, t.id);
    hide Misses, Queue, Print;
  }

  /** Under fixed settings the two candidates are close: the measured fields within one step, the prices within one
      material move. */
  lemma ReuseIsBounded(then_: Batch, entries: Entries, t: Signal, now: Batch, s: Signal)
    requires SoundReuse(then_, entries, t, now, s)
    requires then_.round.ln == now.round.ln && IsLogarithm(now.round.ln)
    requires then_.round.ctx.steps == now.round.ctx.steps
    ensures WithinStep(Probability(t), Probability(s), now.round.ctx.steps.probability)
    ensures WithinStep(ExpectedR(t), ExpectedR(s), now.round.ctx.steps.expectedR)
    ensures WithinStep(Some(EntryScore(t)), Some(EntryScore(s)), now.round.ctx.steps.score)
    ensures t.entryPrice > 0.0 ==> s.entryPrice <= t.entryPrice * (1.0 + now.round.ctx.steps.moveBps / 10000.0)
    ensures t.symbol == s.symbol && t.grain == s.grain && t.entryState == s.entryState && t.text == s.text
    ensures multiset(t.supporting) == multiset(s.supporting) && multiset(t.opposing) == multiset(s.opposing)
    ensures then_.round.ctx.regime == now.round.ctx.regime && then_.round.ctx.version == now.round.ctx.version
  {
    BoundedReuse(t, s, then_.round.ctx, now.round.ctx, now.round.ln);
    hide *;
  }
}
