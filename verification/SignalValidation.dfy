/** Selective cached review of candidate signals, fail-closed. */
module SignalValidation {
  import opened Common
  import opened VerdictCache

  datatype Assessment = Assessment(required: bool, priority: int)

  /** What is fixed while one batch is validated. The review policy and the logarithm are parameters. */
  datatype Round = Round(
    ctx: Context, ln: real -> real, active: set<string>, assess: Signal -> Assessment, ttl: nat, capacity: int,
    now: int)

  datatype Item = Malformed | Item(id: string, review: Review)

  /** What comes back for the cache misses: nothing (budget, breaker, limiter or transport), or any list of items. */
  datatype Answer = Failed | Replied(items: seq<Item>)

  ghost predicate DistinctIds(signals: seq<Signal>) {
    forall i, j :: 0 <= i < j < |signals| ==> signals[i].id != signals[j].id
  }

  function Print(s: Signal, r: Round): MaterialState {
    Fingerprint(s, r.ctx, r.ln)
  }

  // ---- The review queue ----

  predicate IsActive(s: Signal, active: set<string>) {
    var backing := if s.supporting == [] then [s.grain.strategy] else s.supporting;
    exists name :: name in backing && name in active
  }

  function NeedsReview(r: Round): Signal -> bool {
    (s: Signal) => IsActive(s, r.active) && r.assess(s).required
  }

  /** Higher priority first, ties by identifier. */
  predicate Before(a: Signal, b: Signal, r: Round) {
    var p, q := r.assess(a).priority, r.assess(b).priority;
    p > q || (p == q && StringLe(a.id, b.id))
  }

  /** What serving one candidate before another means: a higher priority, or the same one and an identifier that does
      not come after in lexicographic order. */
  ghost predicate Precedes(a: Signal, b: Signal, r: Round) {
    && r.assess(a).priority >= r.assess(b).priority
    && (r.assess(a).priority == r.assess(b).priority ==> Lexicographic(a.id, b.id))
  }

  lemma BeforeMeans(a: Signal, b: Signal, r: Round)
    ensures Before(a, b, r) <==> Precedes(a, b, r)
  {
    StringLeIsLexicographic(a.id, b.id);
    hide StringLe, Lexicographic;
  }

  lemma BeforeTotal(a: Signal, b: Signal, r: Round)
    ensures Before(a, b, r) || Before(b, a, r)
  {
    StringLeTotal(a.id, b.id);
  }

  lemma BeforeTransitive(a: Signal, b: Signal, c: Signal, r: Round)
    requires Before(a, b, r) && Before(b, c, r)
    ensures Before(a, c, r)
  {
    if r.assess(a).priority == r.assess(b).priority == r.assess(c).priority {
      StringLeTransitive(a.id, b.id, c.id);
    }
  }

  function Insert(q: seq<Signal>, x: Signal, r: Round): seq<Signal> {
    if q == [] || Before(x, q[0], r) then [x] + q else [q[0]] + Insert(q[1..], x, r)
  }

  function Sorted(q: seq<Signal>, r: Round): seq<Signal> {
    if q == [] then [] else Insert(Sorted(q[1..], r), q[0], r)
  }

  ghost predicate InOrder(q: seq<Signal>, r: Round) {
    forall i, j :: 0 <= i < j < |q| ==> Before(q[i], q[j], r)
  }

  lemma {:induction false} InsertKeepsOrder(q: seq<Signal>, x: Signal, r: Round)
    requires InOrder(q, r)
    ensures InOrder(Insert(q, x, r), r) && multiset(Insert(q, x, r)) == multiset(q) + multiset{x}
  {
    if q == [] {
    } else {
      assert q == [q[0]] + q[1..];
      if Before(x, q[0], r) {
        forall j | 0 <= j < |q| ensures Before(x, q[j], r) {
          if j > 0 { BeforeTransitive(x, q[0], q[j], r); }
        }
      } else {
        BeforeTotal(x, q[0], r);
        InsertKeepsOrder(q[1..], x, r);
        var rest := Insert(q[1..], x, r);
        forall j | 0 <= j < |rest| ensures Before(q[0], rest[j], r) {
          assert rest[j] in multiset(rest);
          assert rest[j] == x || rest[j] in q[1..];
        }
      }
    }
  }

  /** The queue is worked through in (priority, identifier) order; sorting it neither loses nor adds a candidate. */
  lemma {:induction false} SortedIsOrderedPermutation(q: seq<Signal>, r: Round)
    ensures InOrder(Sorted(q, r), r) && multiset(Sorted(q, r)) == multiset(q)
    ensures forall i, j :: 0 <= i < j < |Sorted(q, r)| ==> Precedes(Sorted(q, r)[i], Sorted(q, r)[j], r)
  {
    if q != [] {
      assert q == [q[0]] + q[1..];
      SortedIsOrderedPermutation(q[1..], r);
      InsertKeepsOrder(Sorted(q[1..], r), q[0], r);
    }
    forall i, j | 0 <= i < j < |Sorted(q, r)| ensures Precedes(Sorted(q, r)[i], Sorted(q, r)[j], r) {
      BeforeMeans(Sorted(q, r)[i], Sorted(q, r)[j], r);
    }
    hide Precedes, Before, Sorted;
  }

  function Tied(s: Signal, r: Round): Signal -> bool {
    (t: Signal) => r.assess(t).priority == r.assess(s).priority && t.id == s.id
  }

  lemma {:induction false} InsertIsStable(q: seq<Signal>, x: Signal, r: Round, s: Signal)
    ensures Filter(Insert(q, x, r), Tied(s, r)) == Filter([x], Tied(s, r)) + Filter(q, Tied(s, r))
  {
    if q == [] || Before(x, q[0], r) {
      FilterConcat([x], q, Tied(s, r));
    } else {
      assert q == [q[0]] + q[1..];
      InsertIsStable(q[1..], x, r, s);
      FilterConcat([q[0]], q[1..], Tied(s, r));
      FilterConcat([q[0]], Insert(q[1..], x, r), Tied(s, r));
      SameIsNotBefore(x, q[0], r);
      assert [x][..0] == [] && [q[0]][..0] == [];
      hide Before, Insert;
    }
  }

  lemma SameIsNotBefore(x: Signal, y: Signal, r: Round)
    ensures r.assess(x).priority == r.assess(y).priority && x.id == y.id ==> Before(x, y, r)
  {
    StringLeTotal(x.id, y.id);
  }

  /** Candidates of one priority and one identifier keep the order they came in. */
  lemma {:induction false} SortedIsStable(q: seq<Signal>, r: Round, s: Signal)
    ensures Filter(Sorted(q, r), Tied(s, r)) == Filter(q, Tied(s, r))
  {
    if q != [] {
      assert q == [q[0]] + q[1..];
      SortedIsStable(q[1..], r, s);
      InsertIsStable(Sorted(q[1..], r), q[0], r, s);
      FilterConcat([q[0]], q[1..], Tied(s, r));
    }
  }

  function Queue(signals: seq<Signal>, r: Round): seq<Signal> {
    Sorted(Filter(signals, NeedsReview(r)), r)
  }

  lemma QueueMembers(signals: seq<Signal>, r: Round)
    ensures forall s :: s in Queue(signals, r) <==> s in signals && NeedsReview(r)(s)
  {
    SortedIsOrderedPermutation(Filter(signals, NeedsReview(r)), r);
    FilterMembers(signals, NeedsReview(r));
    forall s ensures s in Queue(signals, r) <==> s in Filter(signals, NeedsReview(r)) {
      assert s in Queue(signals, r) <==> s in multiset(Queue(signals, r));
    }
  }

  // ---- Cache hits, misses, deferrals ----

  function CachedVerdict(s: Signal, r: Round, entries: map<MaterialState, Verdict>): Option<Verdict> {
    if r.ttl > 0 then Lookup(entries, Print(s, r), r.now) else None
  }

  function Missed(r: Round, entries: map<MaterialState, Verdict>): Signal -> bool {
    (s: Signal) => CachedVerdict(s, r, entries).None?
  }

  function Room(r: Round, available: nat): (n: nat)
    ensures n <= available
  {
    if r.capacity <= 0 then 0 else if r.capacity < available then r.capacity else available
  }

  /** The uncached candidates sent for review, and those left over, in queue order. */
  function Misses(queue: seq<Signal>, r: Round, entries: map<MaterialState, Verdict>): seq<Signal> {
    var uncached := Filter(queue, Missed(r, entries));
    uncached[..Room(r, |uncached|)]
  }

  function LeftOver(queue: seq<Signal>, r: Round, entries: map<MaterialState, Verdict>): seq<Signal> {
    var uncached := Filter(queue, Missed(r, entries));
    uncached[Room(r, |uncached|)..]
  }

  /** Looking the queue up drops the expired entries it touches. */
  function AfterLookups(entries: map<MaterialState, Verdict>, queue: seq<Signal>, r: Round)
    : map<MaterialState, Verdict> {
    if queue == [] || r.ttl == 0 then entries
    else AfterLookup(AfterLookups(entries, queue[..|queue| - 1], r), Print(queue[|queue| - 1], r), r.now)
  }

  lemma {:induction false} LookupsDoNotInterfere(entries: map<MaterialState, Verdict>, queue: seq<Signal>, s: Signal,
                                                 r: Round)
    ensures CachedVerdict(s, r, AfterLookups(entries, queue, r)) == CachedVerdict(s, r, entries)
  {
    if queue != [] && r.ttl > 0 {
      LookupsDoNotInterfere(entries, queue[..|queue| - 1], s, r);
    }
  }

  // ---- Reviews ----

  ghost predicate NamedOnce(items: seq<Item>) {
    && (forall i :: 0 <= i < |items| ==> items[i].Item?)
    && (forall i, j :: 0 <= i < j < |items| ==> items[i].id != items[j].id)
  }

  function Ids(signals: seq<Signal>): set<string> {
    set s | s in signals :: s.id
  }

  function ItemIds(items: seq<Item>): set<string> {
    set i | i in items && i.Item? :: i.id
  }

  /** The strict schema: every item well formed, each expected candidate named exactly once, nobody else named. */
  ghost predicate Exact(items: seq<Item>, expected: set<string>) {
    NamedOnce(items) && ItemIds(items) == expected
  }

  function Clamped(review: Review): Review {
    Review(review.handling, Clamp01(review.confidence))
  }

  function ReviewMap(items: seq<Item>): map<string, Review> {
    if items == [] then map[]
    else
      var last := items[|items| - 1];
      if last.Item? then ReviewMap(items[..|items| - 1])[last.id := Clamped(last.review)]
        else ReviewMap(items[..|items| - 1])
  }

  ghost function Parsed(items: seq<Item>, misses: seq<Signal>): (reviews: Option<map<string, Review>>) {
    if Exact(items, Ids(misses)) then Some(ReviewMap(items)) else None
  }

  lemma {:induction false} ReviewMapMeans(items: seq<Item>)
    requires NamedOnce(items)
    ensures ReviewMap(items).Keys == ItemIds(items)
    ensures forall i :: 0 <= i < |items| ==>
      items[i].id in ReviewMap(items) && ReviewMap(items)[items[i].id] == Clamped(items[i].review)
  {
    if items != [] {
      var front := items[..|items| - 1];
      assert items == front + [items[|items| - 1]];
      ReviewMapMeans(front);
    }
  }

  /** A parse succeeds exactly on exact replies, and then holds each item's review under its identifier. */
  method ParseReviews(items: seq<Item>, misses: seq<Signal>) returns (reviews: Option<map<string, Review>>)
    ensures reviews.Some? <==> Exact(items, Ids(misses))
    ensures reviews == Parsed(items, misses)
  {
    var expected := Ids(misses);
    var result: map<string, Review> := map[];
    assert NamedOnce(items[..0]) && ItemIds(items[..0]) == {} && ReviewMap(items[..0]) == map[];
    hide *;
    for i := 0 to |items|
      invariant NamedOnce(items[..i])
      invariant result.Keys == ItemIds(items[..i]) && result.Keys <= expected
      invariant result == ReviewMap(items[..i])
    {
      ParseStep(items, i, expected);
      if items[i].Malformed? {
        NotExact(items, misses);
        return None;
      }
      if items[i].id !in expected {
        NotExact(items, misses);
        return None;
      }
      if items[i].id in result {
        NotExact(items, misses);
        return None;
      }
      result := result[items[i].id := Clamped(items[i].review)];
    }
    assert items[..|items|] == items;
    WhenParsed(items, misses);
    if result.Keys != expected {
      return None;
    }
    return Some(result);
  }

  lemma NotExact(items: seq<Item>, misses: seq<Signal>)
    ensures !Exact(items, Ids(misses)) ==> Parsed(items, misses).None?
  {
  }

  lemma WhenParsed(items: seq<Item>, misses: seq<Signal>)
    requires NamedOnce(items)
    ensures Exact(items, Ids(misses)) <==> ItemIds(items) == Ids(misses)
    ensures Parsed(items, misses) == if Exact(items, Ids(misses)) then Some(ReviewMap(items)) else None
  {
  }

  /** What one more item decides. */
  lemma ParseStep(items: seq<Item>, i: nat, expected: set<string>)
    requires i < |items| && NamedOnce(items[..i])
    ensures items[i].Malformed? ==> !Exact(items, expected)
    ensures items[i].Item? ==>
      && ItemIds(items[..i + 1]) == ItemIds(items[..i]) + {items[i].id}
      && ReviewMap(items[..i + 1]) == ReviewMap(items[..i])[items[i].id := Clamped(items[i].review)]
      && (items[i].id !in expected ==> !Exact(items, expected))
      && (if items[i].id in ItemIds(items[..i]) then !Exact(items, expected) else NamedOnce(items[..i + 1]))
  {
    assert items[..i + 1] == items[..i] + [items[i]] && items[..i + 1][..i] == items[..i];
    if items[i].Item? {
      assert items[i].id in ItemIds(items);
    }
    hide Clamped;
  }

  function AfterReviews(entries: map<MaterialState, Verdict>, misses: seq<Signal>, reviews: map<string, Review>,
                        r: Round, at: int): map<MaterialState, Verdict>
    requires Ids(misses) <= reviews.Keys
  {
    if misses == [] || r.ttl == 0 then entries
    else
      var front, last := misses[..|misses| - 1], misses[|misses| - 1];
      assert misses == front + [last];
      var filed := AfterReviews(entries, front, reviews, r, at);
      filed[Print(last, r) := MakeVerdict(Print(last, r), reviews[last.id], r.ttl, at)]
  }

  // ---- What becomes of a candidate ----

  function Judged(review: Review, basis: Basis): Validation {
    Validation(if review.Approves() then Approve else Reject, review.confidence, basis)
  }

  function ByTriage(r: Round): Signal -> Validation {
    (s: Signal) =>
      if !IsActive(s, r.active) then Validation(Reject, 1.0, NotActive) else Validation(Approve, 1.0, ClearContext)
  }

  function ByCache(r: Round, entries: map<MaterialState, Verdict>): Signal -> Validation {
    (s: Signal) =>
      var v := CachedVerdict(s, r, entries);
      if v.Some? then Judged(v.value.review, Cached) else FAILED
  }

  function ByReview(reviews: map<string, Review>): Signal -> Validation {
    (s: Signal) => if s.id in reviews then Judged(reviews[s.id], Reviewed) else FAILED
  }

  function Always(v: Validation): Signal -> Validation {
    (s: Signal) => v
  }

  /** The validation a candidate ends up with, given the cache before the batch, the candidates sent for review and the
      parsed reviews, if any. */
  function Fate(s: Signal, r: Round, entries: map<MaterialState, Verdict>, misses: seq<Signal>,
                reviews: Option<map<string, Review>>): Validation {
    if !NeedsReview(r)(s) then ByTriage(r)(s)
    else if CachedVerdict(s, r, entries).Some? then ByCache(r, entries)(s)
    else if s !in misses then Validation(Deferred, 0.0, Capacity)
    else if reviews.None? then FAILED
    else ByReview(reviews.value)(s)
  }

  function WithValidation(s: Signal, v: Validation): Signal {
    s.(validation := Some(v))
  }

  /** The dictionary by identifier after completing these candidates, in this order. */
  function CompleteAll(before: map<string, Signal>, signals: seq<Signal>, rule: Signal -> Validation)
    : map<string, Signal> {
    if signals == [] then before
    else
      var last := signals[|signals| - 1];
      CompleteAll(before, signals[..|signals| - 1], rule)[last.id := WithValidation(last, rule(last))]
  }

  lemma {:induction false} CompleteAllKeys(before: map<string, Signal>, signals: seq<Signal>,
                                           rule: Signal -> Validation)
    ensures CompleteAll(before, signals, rule).Keys == before.Keys + Ids(signals)
  {
    if signals != [] {
      var front, last := signals[..|signals| - 1], signals[|signals| - 1];
      assert signals == front + [last];
      hide *;
      CompleteAllKeys(before, front, rule);
      CompleteOne(before, front, last, rule);
      IdsOneMore(front, last);
    }
  }

  lemma IdsOneMore(signals: seq<Signal>, s: Signal)
    ensures Ids(signals + [s]) == Ids(signals) + {s.id}
  {
  }

  /** A listed candidate is completed by its own rule. */
  lemma {:induction false} CompletedIn(before: map<string, Signal>, signals: seq<Signal>, rule: Signal -> Validation,
                                       s: Signal)
    requires DistinctIds(signals) && s in signals
    ensures s.id in CompleteAll(before, signals, rule)
    ensures CompleteAll(before, signals, rule)[s.id] == WithValidation(s, rule(s))
    decreases |signals|
  {
    var front, last := signals[..|signals| - 1], signals[|signals| - 1];
    assert signals == front + [last];
    hide WithValidation;
    if s != last {
      CompletedIn(before, front, rule, s);
    }
  }

  lemma {:induction false} NotCompletedIn(before: map<string, Signal>, signals: seq<Signal>, rule: Signal -> Validation,
                                          id: string)
    requires id !in Ids(signals) && id in before
    ensures id in CompleteAll(before, signals, rule) && CompleteAll(before, signals, rule)[id] == before[id]
    decreases |signals|
  {
    if signals != [] {
      var front, last := signals[..|signals| - 1], signals[|signals| - 1];
      assert signals == front + [last];
      NotCompletedIn(before, front, rule, id);
      hide WithValidation;
    }
  }

  // ---- The node, phase by phase ----

  /** Candidates of inactive strategies are rejected, clear ones approved, the rest queued. */
  method Triage(signals: seq<Signal>, r: Round) returns (completed: map<string, Signal>, queue: seq<Signal>)
    ensures queue == Filter(signals, NeedsReview(r))
    ensures completed == CompleteAll(map[], Filter(signals, Clear(r)), ByTriage(r))
  {
    completed, queue := map[], [];
    TriageNothing(r);
    hide *;
    for i := 0 to |signals|
      invariant queue == Filter(signals[..i], NeedsReview(r))
      invariant completed == CompleteAll(map[], Filter(signals[..i], Clear(r)), ByTriage(r))
    {
      var s := signals[i];
      TriageStep(signals[..i], s, r);
      assert signals[..i + 1] == signals[..i] + [s];
      if !IsActive(s, r.active) {
        completed := completed[s.id := WithValidation(s, Validation(Reject, 1.0, NotActive))];
      } else if !r.assess(s).required {
        completed := completed[s.id := WithValidation(s, Validation(Approve, 1.0, ClearContext))];
      } else {
        queue := queue + [s];
      }
    }
    assert signals[..|signals|] == signals;
  }

  lemma TriageNothing(r: Round)
    ensures Filter([], NeedsReview(r)) == [] && CompleteAll(map[], Filter([], Clear(r)), ByTriage(r)) == map[]
  {
  }

  /** One round of the loop, on values. */
  lemma TriageStep(signals: seq<Signal>, s: Signal, r: Round)
    ensures Filter(signals + [s], NeedsReview(r)) ==
      Filter(signals, NeedsReview(r)) + if IsActive(s, r.active) && r.assess(s).required then [s] else []
    ensures var now := CompleteAll(map[], Filter(signals, Clear(r)), ByTriage(r));
      CompleteAll(map[], Filter(signals + [s], Clear(r)), ByTriage(r)) ==
        if !IsActive(s, r.active) then now[s.id := WithValidation(s, Validation(Reject, 1.0, NotActive))]
        else if !r.assess(s).required then now[s.id := WithValidation(s, Validation(Approve, 1.0, ClearContext))]
        else now
  {
    FilterOneMore(signals, s, NeedsReview(r));
    FilterOneMore(signals, s, Clear(r));
    CompleteOne(map[], Filter(signals, Clear(r)), s, ByTriage(r));
    hide Filter, CompleteAll, WithValidation, IsActive;
  }

  function Clear(r: Round): Signal -> bool {
    (s: Signal) => !NeedsReview(r)(s)
  }

  function Hit(r: Round, entries: map<MaterialState, Verdict>): Signal -> bool {
    (s: Signal) => CachedVerdict(s, r, entries).Some?
  }

  /** One pass over the queue: cached verdicts complete their candidate, the first uncached ones are sent for review as
      long as there is capacity, the others are deferred. */
  method LookUp(cache: CandidateVerdictCache, queue: seq<Signal>, r: Round, before: map<string, Signal>)
    returns (completed: map<string, Signal>, misses: seq<Signal>, deferred: seq<Signal>)
    requires cache.Valid()
    modifies cache
    ensures cache.Valid() && cache.entries == AfterLookups(old(cache.entries), queue, r)
    ensures r.ttl > 0 ==> cache.lookups == old(cache.lookups) + |queue|
    ensures misses == Misses(queue, r, old(cache.entries)) && deferred == LeftOver(queue, r, old(cache.entries))
    ensures completed == CompleteAll(before, Filter(queue, Hit(r, old(cache.entries))), ByCache(r, old(cache.entries)))
  {
    completed, misses, deferred := before, [], [];
    ghost var entries := cache.entries;
    LookNothing(r, entries, before);
    hide *;
    for i := 0 to |queue|
      invariant cache.Valid() && cache.entries == AfterLookups(entries, queue[..i], r)
      invariant r.ttl > 0 ==> cache.lookups == old(cache.lookups) + i
      invariant misses == Misses(queue[..i], r, entries) && deferred == LeftOver(queue[..i], r, entries)
      invariant completed == CompleteAll(before, Filter(queue[..i], Hit(r, entries)), ByCache(r, entries))
    {
      var s := queue[i];
      LookRound(before, queue, i, r, entries);
      var verdict := GetFresh(cache, s, r);
      if verdict.Some? {
        completed := completed[s.id := WithValidation(s, Judged(verdict.value.review, Cached))];
      } else if |misses| < r.capacity {
        misses := misses + [s];
      } else {
        deferred := deferred + [s];
      }
    }
    assert queue[..|queue|] == queue;
  }

  /** One round of the loop, on values. */
  lemma LookRound(before: map<string, Signal>, queue: seq<Signal>, i: nat, r: Round,
                  entries: map<MaterialState, Verdict>)
    requires i < |queue|
    ensures var s, ms, ds := queue[i], Misses(queue[..i], r, entries), LeftOver(queue[..i], r, entries);
      var found := if r.ttl > 0 then Lookup(AfterLookups(entries, queue[..i], r), Print(s, r), r.now) else None;
      var now := CompleteAll(before, Filter(queue[..i], Hit(r, entries)), ByCache(r, entries));
      && Misses(queue[..i + 1], r, entries) == (if found.None? && |ms| < r.capacity then ms + [s] else ms)
      && LeftOver(queue[..i + 1], r, entries) == (if found.None? && |ms| >= r.capacity then ds + [s] else ds)
      && CompleteAll(before, Filter(queue[..i + 1], Hit(r, entries)), ByCache(r, entries)) ==
           (if found.Some? then now[s.id := WithValidation(s, Judged(found.value.review, Cached))] else now)
    ensures AfterLookups(entries, queue[..i + 1], r) ==
      if r.ttl > 0 then AfterLookup(AfterLookups(entries, queue[..i], r), Print(queue[i], r), r.now)
      else AfterLookups(entries, queue[..i], r)
  {
    assert queue[..i + 1] == queue[..i] + [queue[i]];
    LookStep(queue[..i], queue[i], r, entries);
    EntriesStep(queue[..i], queue[i], r, entries);
    CompletedStep(before, queue[..i], queue[i], r, entries);
    hide *;
  }

  lemma CompletedStep(before: map<string, Signal>, queue: seq<Signal>, s: Signal, r: Round,
                      entries: map<MaterialState, Verdict>)
    ensures var now := CompleteAll(before, Filter(queue, Hit(r, entries)), ByCache(r, entries));
      CompleteAll(before, Filter(queue + [s], Hit(r, entries)), ByCache(r, entries)) ==
        match CachedVerdict(s, r, entries)
        case Some(v) => now[s.id := WithValidation(s, Judged(v.review, Cached))]
        case None => now
  {
    FilterOneMore(queue, s, Hit(r, entries));
    CompleteOne(before, Filter(queue, Hit(r, entries)), s, ByCache(r, entries));
    hide Filter, CompleteAll, WithValidation, CachedVerdict, Judged;
  }

  /** The cache is not even asked when verdicts do not live. */
  method GetFresh(cache: CandidateVerdictCache, s: Signal, r: Round) returns (verdict: Option<Verdict>)
    requires cache.Valid()
    modifies cache
    ensures cache.Valid() && cache.lookups == old(cache.lookups) + if r.ttl > 0 then 1 else 0
    ensures verdict == if r.ttl > 0 then Lookup(old(cache.entries), Print(s, r), r.now) else None
    ensures cache.entries == if r.ttl > 0 then AfterLookup(old(cache.entries), Print(s, r), r.now)
      else old(cache.entries)
  {
    verdict := None;
    if r.ttl > 0 {
      verdict := cache.Get(Print(s, r), r.now);
    }
  }

  lemma LookNothing(r: Round, entries: map<MaterialState, Verdict>, before: map<string, Signal>)
    ensures Misses([], r, entries) == [] && LeftOver([], r, entries) == [] && AfterLookups(entries, [], r) == entries
    ensures CompleteAll(before, Filter([], Hit(r, entries)), ByCache(r, entries)) == before
  {
  }

  lemma LookStep(queue: seq<Signal>, s: Signal, r: Round, entries: map<MaterialState, Verdict>)
    ensures var ms, ds := Misses(queue, r, entries), LeftOver(queue, r, entries);
      var ms1, ds1 := Misses(queue + [s], r, entries), LeftOver(queue + [s], r, entries);
      if CachedVerdict(s, r, entries).Some? then ms1 == ms && ds1 == ds
      else if |ms| < r.capacity then ms1 == ms + [s] && ds1 == ds
      else ms1 == ms && ds1 == ds + [s]
  {
    assert (queue + [s])[..|queue|] == queue;
    hide CachedVerdict;
  }

  lemma EntriesStep(queue: seq<Signal>, s: Signal, r: Round, entries: map<MaterialState, Verdict>)
    ensures CachedVerdict(s, r, entries) ==
      if r.ttl > 0 then Lookup(AfterLookups(entries, queue, r), Print(s, r), r.now) else None
    ensures AfterLookups(entries, queue + [s], r) ==
      if r.ttl > 0 then AfterLookup(AfterLookups(entries, queue, r), Print(s, r), r.now)
        else AfterLookups(entries, queue, r)
  {
    LookupsDoNotInterfere(entries, queue, s, r);
    assert (queue + [s])[..|queue|] == queue;
    hide Lookup, AfterLookup, Print;
  }

  lemma NoReviews(entries: map<MaterialState, Verdict>, misses: seq<Signal>, reviews: map<string, Review>, r: Round,
                  at: int, before: map<string, Signal>)
    ensures Ids(misses[..0]) == {} && AfterReviews(entries, misses[..0], reviews, r, at) == entries
    ensures CompleteAll(before, misses[..0], ByReview(reviews)) == before
  {
  }

  lemma ReviewStep(entries: map<MaterialState, Verdict>, misses: seq<Signal>, i: nat, reviews: map<string, Review>,
                   r: Round, at: int, before: map<string, Signal>)
    requires i < |misses| && Ids(misses) <= reviews.Keys
    ensures Ids(misses[..i]) <= reviews.Keys && Ids(misses[..i + 1]) <= reviews.Keys && misses[i].id in reviews
    ensures var s, now := misses[i], AfterReviews(entries, misses[..i], reviews, r, at);
      var verdict := MakeVerdict(Print(s, r), reviews[s.id], r.ttl, at);
      && verdict.fingerprint == Print(s, r)
      && AfterReviews(entries, misses[..i + 1], reviews, r, at) ==
        if r.ttl == 0 then now else now[Print(s, r) := verdict]
    ensures var s := misses[i];
      CompleteAll(before, misses[..i + 1], ByReview(reviews)) ==
        CompleteAll(before, misses[..i], ByReview(reviews))[s.id := WithValidation(s, Judged(reviews[s.id], Reviewed))]
  {
    assert misses[..i + 1][..i] == misses[..i];
    assert misses[i] in misses && misses[i].id in Ids(misses);
    hide WithValidation, Judged, Print;
  }

  /** Each reviewed candidate is completed by its own review, which is cached. */
  method Apply(cache: CandidateVerdictCache, misses: seq<Signal>, reviews: map<string, Review>, r: Round, at: int,
               before: map<string, Signal>) returns (completed: map<string, Signal>)
    requires cache.Valid() && Ids(misses) <= reviews.Keys
    modifies cache`entries
    ensures cache.Valid() && cache.entries == AfterReviews(old(cache.entries), misses, reviews, r, at)
    ensures completed == CompleteAll(before, misses, ByReview(reviews))
  {
    completed := before;
    ghost var entries := cache.entries;
    NoReviews(entries, misses, reviews, r, at, before);
    hide *;
    for i := 0 to |misses|
      invariant cache.Valid() && Ids(misses[..i]) <= reviews.Keys
      invariant cache.entries == AfterReviews(entries, misses[..i], reviews, r, at)
      invariant completed == CompleteAll(before, misses[..i], ByReview(reviews))
    {
      var s := misses[i];
      ReviewStep(entries, misses, i, reviews, r, at, before);
      completed := completed[s.id := WithValidation(s, Judged(reviews[s.id], Reviewed))];
      if r.ttl > 0 {
        cache.Set(MakeVerdict(Print(s, r), reviews[s.id], r.ttl, at));
      }
    }
    assert misses[..|misses|] == misses;
  }

  /** The listed candidates get this validation. */
  method Settle(signals: seq<Signal>, v: Validation, before: map<string, Signal>)
    returns (completed: map<string, Signal>)
    ensures completed == CompleteAll(before, signals, Always(v))
  {
    completed := before;
    for i := 0 to |signals|
      invariant completed == CompleteAll(before, signals[..i], Always(v))
    {
      assert signals[..i + 1][..i] == signals[..i];
      completed := completed[signals[i].id := WithValidation(signals[i], v)];
    }
    assert signals[..|signals|] == signals;
  }

  const FAILED := Validation(Reject, 0.0, Unreviewed)

  /** The dictionary after rejecting, in this order, whoever is not in it yet. */
  function FailAll(before: map<string, Signal>, misses: seq<Signal>): map<string, Signal> {
    if misses == [] then before
    else
      var now, last := FailAll(before, misses[..|misses| - 1]), misses[|misses| - 1];
      if last.id in now then now else now[last.id := WithValidation(last, FAILED)]
  }

  /** Whatever is still missing after the review is rejected: missing, malformed and failed reviews never approve. */
  method FailClosed(misses: seq<Signal>, before: map<string, Signal>) returns (completed: map<string, Signal>)
    ensures completed == FailAll(before, misses)
  {
    completed := before;
    for i := 0 to |misses|
      invariant completed == FailAll(before, misses[..i])
    {
      var s := misses[i];
      assert misses[..i + 1][..i] == misses[..i];
      if s.id in completed {
        continue;
      }
      completed := completed[s.id := WithValidation(s, FAILED)];
    }
    assert misses[..|misses|] == misses;
  }

  /** Nobody completed is touched, and everybody else is rejected. */
  lemma {:induction false} FailAllMeans(before: map<string, Signal>, misses: seq<Signal>)
    ensures FailAll(before, misses).Keys == before.Keys + Ids(misses)
    ensures forall id :: id in before ==> FailAll(before, misses)[id] == before[id]
    ensures forall id :: id in Ids(misses) && id !in before ==>
      exists s :: s in misses && s.id == id && FailAll(before, misses)[id] == WithValidation(s, FAILED)
  {
    if misses != [] {
      var front, last := misses[..|misses| - 1], misses[|misses| - 1];
      assert misses == front + [last];
      FailAllMeans(before, front);
      IdsOneMore(front, last);
      hide WithValidation;
    }
  }

  lemma CompleteOne(before: map<string, Signal>, signals: seq<Signal>, s: Signal, rule: Signal -> Validation)
    ensures CompleteAll(before, signals + [], rule) == CompleteAll(before, signals, rule)
    ensures CompleteAll(before, signals + [s], rule) ==
      CompleteAll(before, signals, rule)[s.id := WithValidation(s, rule(s))]
  {
    assert signals + [] == signals && (signals + [s])[..|signals|] == signals;
    hide WithValidation;
  }

  lemma NewIdentifier(signals: seq<Signal>, i: nat)
    requires DistinctIds(signals) && i < |signals|
    ensures signals[i].id !in Ids(signals[..i])
  {
  }

  lemma FilteredIds(signals: seq<Signal>, p: Signal -> bool)
    ensures Ids(Filter(signals, p)) <= Ids(signals)
  {
    FilterMembers(signals, p);
  }

  // ---- The whole node ----

  ghost function ParsedAnswer(answer: Answer, misses: seq<Signal>): Option<map<string, Review>> {
    if misses == [] || answer.Failed? then None else Parsed(answer.items, misses)
  }

  ghost function FinalMap(signals: seq<Signal>, r: Round, entries: map<MaterialState, Verdict>,
                          answer: Answer): map<string, Signal> {
    var queue := Queue(signals, r);
    var misses, deferred := Misses(queue, r, entries), LeftOver(queue, r, entries);
    var triaged := CompleteAll(map[], Filter(signals, Clear(r)), ByTriage(r));
    var looked := CompleteAll(triaged, Filter(queue, Hit(r, entries)), ByCache(r, entries));
    var settled := CompleteAll(looked, deferred, Always(Validation(Deferred, 0.0, Capacity)));
    var reviews := ParsedAnswer(answer, misses);
    var reviewed := if reviews.Some? then CompleteAll(settled, misses, ByReview(reviews.value)) else settled;
    FailAll(reviewed, misses)
  }
}
