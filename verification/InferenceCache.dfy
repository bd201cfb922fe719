/** The lock-protected state of the prediction agent and the critical sections of its cached inference call. */
module InferenceCache {
  import opened Common
  import opened Lru

  datatype CacheKey = CacheKey(
    market: string, instrumentScope: string, symbol: string, timeframe: string,
    strategyVersion: string, modelVersion: string, featureVersion: string, candleToken: string)

  datatype Prediction = Prediction(symbol: string, direction: string, confidence: real, abstained: bool)

  type EventId = nat

  /** Everything `_cache_lock` protects. `order` and `entries` are the ordered dictionary, oldest key first;
      an event is an identifier, in `fired` once it has been set. */
  datatype Shared = Shared(
    size: nat, order: seq<CacheKey>, entries: map<CacheKey, Prediction>,
    inflight: map<CacheKey, EventId>, nextEvent: EventId, fired: set<EventId>,
    hits: nat, misses: nat, inferences: nat)

  datatype Outcome = Found(value: Prediction) | Wait(event: EventId) | Produce(event: EventId)

  ghost predicate WellFormed(s: Shared) {
    && s.size >= 1
    && Distinct(s.order)
    && (forall k :: k in s.order <==> k in s.entries)
    && |s.order| <= s.size
  }

  function NewShared(cacheSize: int): Shared {
    Shared(if cacheSize >= 1 then cacheSize else 1, [], map[], map[], 0, {}, 0, 0, 0)
  }

  /** The body of the `while True` loop: a hit, a wait on somebody else's event, or becoming the producer. */
  function LookupSection(s: Shared, key: CacheKey): (Shared, Outcome) {
    if key in s.entries then
      (s.(order := MoveToEnd(s.order, key), hits := s.hits + 1), Found(s.entries[key]))
    else if key in s.inflight then
      (s, Wait(s.inflight[key]))
    else
      (s.(inflight := s.inflight[key := s.nextEvent], nextEvent := s.nextEvent + 1, misses := s.misses + 1),
       Produce(s.nextEvent))
  }

  /** The producer's first critical section: count, store as newest, evict down to the size. */
  function StoreSection(s: Shared, key: CacheKey, value: Prediction, modelInvoked: bool): Shared {
    var order := LastN(MoveToEnd(s.order, key), s.size);
    s.(inferences := s.inferences + (if modelInvoked then 1 else 0),
       order := order,
       entries := Restrict(s.entries[key := value], order))
  }

  function Restrict(m: map<CacheKey, Prediction>, keys: seq<CacheKey>): map<CacheKey, Prediction> {
    map k | k in m && k in keys :: m[k]
  }

  /** The keys that `StoreSection` evicts. */
  function EvictedBy(s: Shared, key: CacheKey): seq<CacheKey> {
    var grown := MoveToEnd(s.order, key);
    if |grown| <= s.size then [] else grown[..|grown| - s.size]
  }

  /** The `finally` block: drop the in-flight entry and set its event, whatever happened before. */
  function WakeSection(s: Shared, key: CacheKey): Shared {
    if key in s.inflight then
      s.(inflight := s.inflight - {key}, fired := s.fired + {s.inflight[key]})
    else s
  }

  function ClearSection(s: Shared): Shared {
    s.(order := [], entries := map[])
  }

  datatype CacheMetrics = CacheMetrics(hits: nat, misses: nat, inferences: nat, entries: nat)

  class PredictionAgent {
    const cacheSize: nat
    var order: seq<CacheKey>
    var entries: map<CacheKey, Prediction>
    var inflight: map<CacheKey, EventId>
    var nextEvent: EventId
    var fired: set<EventId>
    var cacheHits: nat
    var cacheMisses: nat
    var inferenceCount: nat

    ghost function State(): Shared
      reads this
    {
      Shared(cacheSize, order, entries, inflight, nextEvent, fired, cacheHits, cacheMisses, inferenceCount)
    }

    ghost predicate Valid()
      reads this
    {
      WellFormed(State())
    }

    constructor (size: int)
      ensures Valid() && State() == NewShared(size)
    {
      cacheSize := if size >= 1 then size else 1;
      order, entries, inflight, nextEvent, fired := [], map[], map[], 0, {};
      cacheHits, cacheMisses, inferenceCount := 0, 0, 0;
    }

    method Lookup(key: CacheKey) returns (outcome: Outcome)
      requires Valid()
      modifies this
      ensures Valid()
      ensures (State(), outcome) == LookupSection(old(State()), key)
    {
      if key in entries {
        MoveToEndSpec(order, key);
        order := MoveToEnd(order, key);
        cacheHits := cacheHits + 1;
        return Found(entries[key]);
      }
      if key in inflight {
        return Wait(inflight[key]);
      }
      outcome := Produce(nextEvent);
      inflight := inflight[key := nextEvent];
      nextEvent := nextEvent + 1;
      cacheMisses := cacheMisses + 1;
    }

    method Store(key: CacheKey, value: Prediction, modelInvoked: bool)
      requires Valid()
      modifies this
      ensures Valid() && key in entries && entries[key] == value
      ensures State() == StoreSection(old(State()), key, value, modelInvoked)
    {
      if modelInvoked {
        inferenceCount := inferenceCount + 1;
      }
      MoveToEndSpec(order, key);
      entries := entries[key := value];
      order := MoveToEnd(order, key);
      CutKeepsNewest(order, cacheSize);
      EvictOldest();
    }

    /** The eviction loop: pop the oldest entry while the cache is over its size. */
    method EvictOldest()
      requires Distinct(order) && (forall k :: k in order <==> k in entries)
      modifies `order, `entries
      ensures order == LastN(old(order), cacheSize)
      ensures entries == Restrict(old(entries), order)
      ensures Distinct(order) && (forall k :: k in order <==> k in entries)
    {
      ghost var was, dropped := order, 0;
      while |order| > cacheSize
        invariant dropped <= |was| && order == was[dropped..]
        invariant dropped == 0 || |order| >= cacheSize
        invariant Distinct(order)
        invariant forall k :: k in order <==> k in entries
        invariant forall k :: k in entries ==> k in old(entries) && entries[k] == old(entries)[k]
      {
        DropOldest(order);
        entries := entries - {order[0]};
        order := order[1..];
        dropped := dropped + 1;
      }
      assert was[0..] == was;
      CutIsDistinct(was, cacheSize);
      assert entries == Restrict(old(entries), order);
    }

    method Wake(key: CacheKey)
      requires Valid()
      modifies this
      ensures Valid() && key !in inflight
      ensures State() == WakeSection(old(State()), key)
    {
      if key in inflight {
        fired := fired + {inflight[key]};
        inflight := inflight - {key};
      }
    }

    method ClearCache()
      requires Valid()
      modifies this
      ensures Valid() && State() == ClearSection(old(State()))
    {
      order, entries := [], map[];
    }

    /** A consistent snapshot: as many entries as there are cached keys, never more than the cache may hold, and the
        counters of that moment. */
    method Metrics() returns (m: CacheMetrics)
      requires Valid()
      ensures m.entries == |entries| <= cacheSize
      ensures m.hits == cacheHits && m.misses == cacheMisses && m.inferences == inferenceCount
    {
      SameSize(order, entries.Keys);
      m := CacheMetrics(cacheHits, cacheMisses, inferenceCount, |order|);
    }

    /** One call with nobody else running: `live` is what `predict_live` answers, or `None` when it raises. A key
        that is being produced makes the call wait, with nothing changed. Otherwise nothing is left in flight that
        was not before, and a failed call changes the miss counter and events only. */
    method PredictCached(key: CacheKey, live: Option<(Prediction, bool)>) returns (result: CallResult)
      requires Valid()
      modifies this
      ensures Valid() && inflight == old(inflight)
      ensures key in old(entries) ==> result == Got(old(entries)[key]) && cacheMisses == old(cacheMisses)
      ensures key !in old(entries) && key in inflight ==> result == Blocked(inflight[key]) && State() == old(State())
      ensures key !in old(entries) && key !in inflight && live.Some? ==>
        result == Got(live.value.0) && key in entries && entries[key] == live.value.0
      ensures key !in old(entries) && key !in inflight && live.None? ==>
        result == Rethrown && order == old(order) && entries == old(entries)
      ensures !result.Blocked? ==> cacheHits + cacheMisses == old(cacheHits) + old(cacheMisses) + 1
    {
      var outcome := Lookup(key);
      if outcome.Found? {
        return Got(outcome.value);
      }
      if outcome.Wait? {
        return Blocked(outcome.event);
      }
      match live {
        case Some(answer) =>
          Store(key, answer.0, answer.1);
          result := Got(answer.0);
        case None =>
          result := Rethrown;
      }
      Wake(key);
    }
  }

  datatype CallResult = Got(value: Prediction) | Rethrown | Blocked(event: EventId)

  lemma {:induction false} SameSize(xs: seq<CacheKey>, keys: set<CacheKey>)
    requires Distinct(xs) && forall k :: k in xs <==> k in keys
    ensures |xs| == |keys|
  {
    if xs != [] {
      var front, last := xs[..|xs| - 1], xs[|xs| - 1];
      assert xs == front + [last];
      assert last !in front;
      assert forall i :: 0 <= i < |front| ==> front[i] == xs[i];
      SameSize(front, keys - {last});
    }
  }
}
