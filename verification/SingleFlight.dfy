/** Concurrent callers of the cached inference call, as a step relation over their critical sections. */
module SingleFlight {
  import opened Common
  import opened Lru
  import opened InferenceCache

  /** Where one call stands. `Producing` runs inference outside the lock; `Closing` has stored a result,
      or raised (`None`), and still has to run its `finally` block. */
  datatype Phase =
    | Ready(key: CacheKey)
    | Waiting(key: CacheKey, event: EventId)
    | Producing(key: CacheKey, event: EventId)
    | Closing(key: CacheKey, event: EventId, result: Option<Prediction>)
    | Returned(key: CacheKey, value: Prediction)
    | Raised(key: CacheKey)

  datatype Event =
    | Hit(key: CacheKey, value: Prediction)
    | Started(key: CacheKey)
    | Stored(key: CacheKey, value: Prediction, invoked: bool, evicted: seq<CacheKey>)
    | Failed(key: CacheKey)
    | Released(key: CacheKey, ok: bool)
    | Cleared

  /** `log` is the history the properties speak about; no step reads it. */
  datatype System = System(shared: Shared, callers: seq<Phase>, log: seq<Event>)

  /** A step, with what the outside world decides: who runs, what inference answers, whether it raises. */
  datatype Label =
    | Arrive(key: CacheKey)
    | DoLookup(caller: nat)
    | Resume(caller: nat)
    | Finish(caller: nat, value: Prediction, invoked: bool)
    | Fail(caller: nat)
    | Close(caller: nat)
    | Clear

  predicate Done(p: Phase) {
    p.Returned? || p.Raised?
  }

  predicate Holds(p: Phase, key: CacheKey) {
    (p.Producing? || p.Closing?) && p.key == key
  }

  predicate Enabled(s: System, l: Label) {
    match l
    case Arrive(_) => true
    case Clear => true
    case DoLookup(t) => t < |s.callers| && s.callers[t].Ready?
    case Resume(t) => t < |s.callers| && s.callers[t].Waiting? && s.callers[t].event in s.shared.fired
    case Finish(t, _, _) => t < |s.callers| && s.callers[t].Producing?
    case Fail(t) => t < |s.callers| && s.callers[t].Producing?
    case Close(t) => t < |s.callers| && s.callers[t].Closing?
  }

  function Next(s: System, l: Label): System
    requires Enabled(s, l)
  {
    match l
    case Arrive(key) => s.(callers := s.callers + [Ready(key)])
    case Clear => s.(shared := ClearSection(s.shared), log := s.log + [Cleared])
    case DoLookup(t) => LookupStep(s, t)
    case Resume(t) => s.(callers := s.callers[t := Ready(s.callers[t].key)])
    case Finish(t, value, invoked) =>
      var p := s.callers[t];
      System(StoreSection(s.shared, p.key, value, invoked),
             s.callers[t := Closing(p.key, p.event, Some(value))],
             s.log + [Stored(p.key, value, invoked, EvictedBy(s.shared, p.key))])
    case Fail(t) =>
      var p := s.callers[t];
      s.(callers := s.callers[t := Closing(p.key, p.event, None)], log := s.log + [Failed(p.key)])
    case Close(t) =>
      var p := s.callers[t];
      System(WakeSection(s.shared, p.key),
             s.callers[t := if p.result.Some? then Returned(p.key, p.result.value) else Raised(p.key)],
             s.log + [Released(p.key, p.result.Some?)])
  }

  function LookupStep(s: System, t: nat): System
    requires t < |s.callers| && s.callers[t].Ready?
  {
    var key := s.callers[t].key;
    var (shared, outcome) := LookupSection(s.shared, key);
    match outcome
    case Found(value) => System(shared, s.callers[t := Returned(key, value)], s.log + [Hit(key, value)])
    case Wait(event) => System(shared, s.callers[t := Waiting(key, event)], s.log)
    case Produce(event) => System(shared, s.callers[t := Producing(key, event)], s.log + [Started(key)])
  }

  function Initial(cacheSize: int): System {
    System(NewShared(cacheSize), [], [])
  }

  /** Every step of the run can be taken when its turn comes. */
  predicate CanRun(s: System, labels: seq<Label>)
    decreases |labels|
  {
    labels == [] || (Enabled(s, labels[0]) && CanRun(Next(s, labels[0]), labels[1..]))
  }

  function Run(s: System, labels: seq<Label>): System
    requires CanRun(s, labels)
    decreases |labels|
  {
    if labels == [] then s else Run(Next(s, labels[0]), labels[1..])
  }

  // ---- Exclusion: who holds a key, and which events are still to come ----

  type Inflight = map<CacheKey, EventId>

  /** A key is in flight exactly when one caller holds it, and under that caller's event. */
  ghost predicate Exclusive(callers: seq<Phase>, inflight: Inflight) {
    && (forall t :: 0 <= t < |callers| && Holds(callers[t], callers[t].key) ==>
          callers[t].key in inflight && inflight[callers[t].key] == callers[t].event)
    && (forall t, u :: 0 <= t < u < |callers| && Holds(callers[t], callers[u].key) ==>
          !Holds(callers[u], callers[u].key))
    && (forall k :: k in inflight ==> exists t :: 0 <= t < |callers| && Holds(callers[t], k))
  }

  /** An event still to be set is the in-flight event of the key its waiters asked for. */
  ghost predicate EventsSound(callers: seq<Phase>, inflight: Inflight, next: EventId, fired: set<EventId>) {
    && (forall e :: e in fired ==> e < next)
    && (forall k :: k in inflight ==> inflight[k] < next && inflight[k] !in fired)
    && (forall j, k :: j in inflight && k in inflight && inflight[j] == inflight[k] ==> j == k)
    && (forall t :: 0 <= t < |callers| && callers[t].Waiting? && callers[t].event !in fired ==>
          callers[t].key in inflight && inflight[callers[t].key] == callers[t].event)
  }

  ghost predicate Coordinated(s: System) {
    && Exclusive(s.callers, s.shared.inflight)
    && EventsSound(s.callers, s.shared.inflight, s.shared.nextEvent, s.shared.fired)
  }

  /** A caller moves on without taking or giving up a key. */
  lemma KeepHolding(callers: seq<Phase>, inflight: Inflight, t: nat, p: Phase)
    requires t < |callers| && Exclusive(callers, inflight) && p.key == callers[t].key
    requires Holds(p, p.key) <==> Holds(callers[t], p.key)
    requires Holds(p, p.key) ==> p.event == callers[t].event
    ensures Exclusive(callers[t := p], inflight)
  {
    var now := callers[t := p];
    forall k | k in inflight ensures exists u :: 0 <= u < |now| && Holds(now[u], k) {
      var u :| 0 <= u < |callers| && Holds(callers[u], k);
      assert Holds(now[u], k);
    }
  }

  lemma TakeKey(callers: seq<Phase>, inflight: Inflight, t: nat, e: EventId)
    requires t < |callers| && Exclusive(callers, inflight)
    requires !Holds(callers[t], callers[t].key) && callers[t].key !in inflight
    ensures Exclusive(callers[t := Producing(callers[t].key, e)], inflight[callers[t].key := e])
  {
    var key := callers[t].key;
    var now := callers[t := Producing(key, e)];
    var grown := inflight[key := e];
    forall k | k in grown ensures exists u :: 0 <= u < |now| && Holds(now[u], k) {
      if k == key {
        assert Holds(now[t], k);
      } else {
        var u :| 0 <= u < |callers| && Holds(callers[u], k);
        assert Holds(now[u], k);
      }
    }
  }

  lemma GiveUpKey(callers: seq<Phase>, inflight: Inflight, t: nat, p: Phase)
    requires t < |callers| && Exclusive(callers, inflight)
    requires Holds(callers[t], callers[t].key) && p.key == callers[t].key && !Holds(p, p.key)
    ensures Exclusive(callers[t := p], inflight - {p.key})
  {
    var now := callers[t := p];
    forall k | k in inflight - {p.key} ensures exists u :: 0 <= u < |now| && Holds(now[u], k) {
      var u :| 0 <= u < |callers| && Holds(callers[u], k);
      assert Holds(now[u], k);
    }
  }

  lemma NewCaller(callers: seq<Phase>, inflight: Inflight, key: CacheKey)
    requires Exclusive(callers, inflight)
    ensures Exclusive(callers + [Ready(key)], inflight)
  {
    var now := callers + [Ready(key)];
    forall k | k in inflight ensures exists u :: 0 <= u < |now| && Holds(now[u], k) {
      var u :| 0 <= u < |callers| && Holds(callers[u], k);
      assert Holds(now[u], k);
    }
  }

  lemma ExclusiveStep(s: System, l: Label)
    requires Coordinated(s) && Enabled(s, l)
    ensures Exclusive(Next(s, l).callers, Next(s, l).shared.inflight)
  {
    match l {
      case Arrive(key) => NewCaller(s.callers, s.shared.inflight, key);
      case Clear =>
      case DoLookup(t) =>
        var key := s.callers[t].key;
        if key !in s.shared.entries && key !in s.shared.inflight {
          TakeKey(s.callers, s.shared.inflight, t, s.shared.nextEvent);
        } else {
          KeepHolding(s.callers, s.shared.inflight, t, Next(s, l).callers[t]);
        }
      case Close(t) =>
        GiveUpKey(s.callers, s.shared.inflight, t, Next(s, l).callers[t]);
      case _ =>
        KeepHolding(s.callers, s.shared.inflight, l.caller, Next(s, l).callers[l.caller]);
    }
  }

  lemma EventsStep(s: System, l: Label)
    requires Coordinated(s) && Enabled(s, l)
    ensures EventsSound(Next(s, l).callers, Next(s, l).shared.inflight, Next(s, l).shared.nextEvent,
                        Next(s, l).shared.fired)
  {
    match l {
      case Close(t) => CloseKeepsEvents(s, t);
      case DoLookup(t) => LookupKeepsEvents(s, t);
      case Arrive(_) =>
      case Clear =>
      case _ =>
        var n := Next(s, l);
        assert forall u :: 0 <= u < |n.callers| && u != l.caller ==> n.callers[u] == s.callers[u];
    }
  }

  lemma CloseKeepsEvents(s: System, t: nat)
    requires Coordinated(s) && Enabled(s, Close(t))
    ensures var n := Next(s, Close(t)); EventsSound(n.callers, n.shared.inflight, n.shared.nextEvent, n.shared.fired)
  {
    var n := Next(s, Close(t));
    assert Holds(s.callers[t], s.callers[t].key);
    assert forall u :: 0 <= u < |n.callers| && u != t ==> n.callers[u] == s.callers[u];
  }

  lemma LookupKeepsEvents(s: System, t: nat)
    requires Coordinated(s) && Enabled(s, DoLookup(t))
    ensures var n := LookupStep(s, t); EventsSound(n.callers, n.shared.inflight, n.shared.nextEvent, n.shared.fired)
  {
    hide MoveToEnd, Exclusive;
    var n := LookupStep(s, t);
    assert forall u :: 0 <= u < |n.callers| && u != t ==> n.callers[u] == s.callers[u];
  }

  // ---- The cache: well formed, in recency order, holding only what was produced ----

  /** The keys touched since the last clear: a hit or a store touches its key. */
  function Touches(log: seq<Event>): seq<CacheKey> {
    if log == [] then []
    else
      var front, last := log[..|log| - 1], log[|log| - 1];
      match last
      case Cleared => []
      case Hit(k, _) => Touches(front) + [k]
      case Stored(k, _, _, _) => Touches(front) + [k]
      case _ => Touches(front)
  }

  /** The whole ordered cache is the newest `size` distinct keys of the touch history. */
  ghost predicate InRecencyOrder(s: System) {
    s.shared.order == LastN(Recency(Touches(s.log)), s.shared.size)
  }

  ghost predicate WasStored(log: seq<Event>, key: CacheKey, value: Prediction) {
    exists m :: 0 <= m < |log| && log[m].Stored? && log[m].key == key && log[m].value == value
  }

  ghost predicate Genuine(s: System) {
    && (forall k :: k in s.shared.entries ==> WasStored(s.log, k, s.shared.entries[k]))
    && (forall t :: 0 <= t < |s.callers| && s.callers[t].Closing? && s.callers[t].result.Some? ==>
          WasStored(s.log, s.callers[t].key, s.callers[t].result.value))
    && (forall t :: 0 <= t < |s.callers| && s.callers[t].Returned? ==>
          WasStored(s.log, s.callers[t].key, s.callers[t].value))
  }

  lemma CacheWellFormedStep(s: System, l: Label)
    requires WellFormed(s.shared) && Enabled(s, l)
    ensures WellFormed(Next(s, l).shared)
  {
    match l {
      case Finish(t, _, _) =>
        var k := s.callers[t].key;
        MoveToEndSpec(s.shared.order, k);
        CutIsDistinct(MoveToEnd(s.shared.order, k), s.shared.size);
        CutKeepsNewest(MoveToEnd(s.shared.order, k), s.shared.size);
      case DoLookup(t) => MoveToEndSpec(s.shared.order, s.callers[t].key);
      case _ =>
    }
  }

  lemma TouchKeepsRecency(order: seq<CacheKey>, touched: seq<CacheKey>, k: CacheKey, size: nat)
    requires size >= 1 && order == LastN(Recency(touched), size)
    ensures LastN(MoveToEnd(order, k), size) == LastN(Recency(touched + [k]), size)
    ensures k in order ==> MoveToEnd(order, k) == LastN(Recency(touched + [k]), size)
  {
    RecencyIsOrderOfLastTouch(touched);
    TouchCommutesWithCut(Recency(touched), k, size);
    assert (touched + [k])[..|touched|] == touched;
  }

  lemma TouchesAppend(log: seq<Event>, e: Event)
    ensures Touches(log + [e]) ==
      if e.Cleared? then [] else if e.Hit? || e.Stored? then Touches(log) + [e.key] else Touches(log)
  {
    assert (log + [e])[..|log|] == log;
  }

  lemma RecencyStep(s: System, l: Label)
    requires WellFormed(s.shared) && InRecencyOrder(s) && Enabled(s, l)
    ensures InRecencyOrder(Next(s, l))
  {
    match l {
      case Finish(t, value, invoked) =>
        var k := s.callers[t].key;
        TouchesAppend(s.log, Stored(k, value, invoked, EvictedBy(s.shared, k)));
        TouchKeepsRecency(s.shared.order, Touches(s.log), k, s.shared.size);
      case DoLookup(t) =>
        LookupKeepsRecency(s, t);
      case Clear => TouchesAppend(s.log, Cleared);
      case Fail(t) => TouchesAppend(s.log, Failed(s.callers[t].key));
      case Close(t) => TouchesAppend(s.log, Released(s.callers[t].key, s.callers[t].result.Some?));
      case _ =>
    }
  }

  lemma LookupKeepsRecency(s: System, t: nat)
    requires WellFormed(s.shared) && InRecencyOrder(s) && t < |s.callers| && s.callers[t].Ready?
    ensures InRecencyOrder(LookupStep(s, t))
  {
    var k := s.callers[t].key;
    if k in s.shared.entries {
      TouchesAppend(s.log, Hit(k, s.shared.entries[k]));
      TouchKeepsRecency(s.shared.order, Touches(s.log), k, s.shared.size);
    } else {
      TouchesAppend(s.log, Started(k));
    }
  }

  lemma WasStoredPersists(log: seq<Event>, e: Event, key: CacheKey, value: Prediction)
    ensures WasStored(log, key, value) ==> WasStored(log + [e], key, value)
    ensures e.Stored? && e.key == key && e.value == value ==> WasStored(log + [e], key, value)
  {
    if WasStored(log, key, value) {
      var m :| 0 <= m < |log| && log[m].Stored? && log[m].key == key && log[m].value == value;
      assert (log + [e])[m] == log[m];
    }
    assert (log + [e])[|log|] == e;
  }

  lemma GenuineStep(s: System, l: Label)
    requires Genuine(s) && Enabled(s, l)
    ensures Genuine(Next(s, l))
  {
    var n := Next(s, l);
    if |n.log| > |s.log| {
      var e := n.log[|s.log|];
      assert n.log == s.log + [e];
      forall k, v ensures WasStored(s.log, k, v) ==> WasStored(n.log, k, v) {
        WasStoredPersists(s.log, e, k, v);
      }
      if e.Stored? {
        WasStoredPersists(s.log, e, e.key, e.value);
      }
    }
  }

  // ---- Counters ----

  datatype Tally = Tally(hits: nat, started: nat, stored: nat, invoked: nat, completed: nat, failed: nat)

  function Count(log: seq<Event>): Tally {
    if log == [] then Tally(0, 0, 0, 0, 0, 0)
    else
      var c := Count(log[..|log| - 1]);
      match log[|log| - 1]
      case Hit(_, _) => c.(hits := c.hits + 1)
      case Started(_) => c.(started := c.started + 1)
      case Stored(_, _, invoked, _) => c.(stored := c.stored + 1, invoked := c.invoked + (if invoked then 1 else 0))
      case Released(_, ok) => if ok then c.(completed := c.completed + 1) else c.(failed := c.failed + 1)
      case _ => c
  }

  /** Every miss started a production that has since completed, failed, or is still in flight. */
  ghost predicate CountersSound(s: System) {
    var c := Count(s.log);
    && s.shared.hits == c.hits
    && s.shared.misses == c.started == c.completed + c.failed + |s.shared.inflight|
    && s.shared.inferences == c.invoked <= c.stored
  }

  lemma CountAppend(log: seq<Event>, e: Event)
    ensures Count(log + [e]) ==
      var c := Count(log);
      match e
      case Hit(_, _) => c.(hits := c.hits + 1)
      case Started(_) => c.(started := c.started + 1)
      case Stored(_, _, invoked, _) => c.(stored := c.stored + 1, invoked := c.invoked + (if invoked then 1 else 0))
      case Released(_, ok) => if ok then c.(completed := c.completed + 1) else c.(failed := c.failed + 1)
      case _ => c
  {
    assert (log + [e])[..|log|] == log;
  }

  lemma CountersStep(s: System, l: Label)
    requires Coordinated(s) && CountersSound(s) && Enabled(s, l)
    ensures CountersSound(Next(s, l))
  {
    match l {
      case Finish(t, value, invoked) =>
        CountAppend(s.log, Stored(s.callers[t].key, value, invoked, EvictedBy(s.shared, s.callers[t].key)));
      case DoLookup(t) =>
        LookupKeepsCounters(s, t);
      case Clear => CountAppend(s.log, Cleared);
      case Fail(t) => CountAppend(s.log, Failed(s.callers[t].key));
      case Close(t) =>
        var k := s.callers[t].key;
        CountAppend(s.log, Released(k, s.callers[t].result.Some?));
        assert Holds(s.callers[t], k);
        assert s.shared.inflight.Keys == (s.shared.inflight - {k}).Keys + {k};
      case _ =>
    }
  }

  lemma LookupKeepsCounters(s: System, t: nat)
    requires CountersSound(s) && t < |s.callers| && s.callers[t].Ready?
    ensures CountersSound(LookupStep(s, t))
  {
    var k := s.callers[t].key;
    if k in s.shared.entries {
      CountAppend(s.log, Hit(k, s.shared.entries[k]));
    } else if k !in s.shared.inflight {
      CountAppend(s.log, Started(k));
      assert s.shared.inflight[k := s.shared.nextEvent].Keys == s.shared.inflight.Keys + {k};
    }
  }

  // ---- Single flight: why a key is ever produced again ----

  ghost predicate StoredBetween(log: seq<Event>, i: nat, j: nat, key: CacheKey) {
    exists m :: i < m < j && m < |log| && log[m].Stored? && log[m].key == key
  }

  /** Event `m` ends the production of `key` that started at `i`: it failed, its entry was evicted, or it was
      cleared. */
  ghost predicate Ends(log: seq<Event>, i: nat, m: nat, key: CacheKey)
    requires m < |log|
  {
    || log[m] == Failed(key)
    || (log[m].Stored? && key in log[m].evicted)
    || (log[m].Cleared? && StoredBetween(log, i, m, key))
  }

  ghost predicate Superseded(log: seq<Event>, i: nat, j: nat, key: CacheKey) {
    exists m :: i < m < j && m < |log| && Ends(log, i, m, key)
  }

  ghost predicate BeingProduced(callers: seq<Phase>, key: CacheKey) {
    exists t :: 0 <= t < |callers| && callers[t].Producing? && callers[t].key == key
  }

  /** A started production is running, or cached, or has ended. */
  ghost predicate Accounted(s: System, i: nat, key: CacheKey) {
    || Superseded(s.log, i, |s.log|, key)
    || (key in s.shared.entries && StoredBetween(s.log, i, |s.log|, key))
    || BeingProduced(s.callers, key)
  }

  ghost predicate SingleFlighted(s: System) {
    && (forall i, k :: 0 <= i < |s.log| && s.log[i] == Started(k) ==> Accounted(s, i, k))
    && (forall i, j, k :: 0 <= i < j < |s.log| && s.log[i] == Started(k) && s.log[j] == Started(k) ==>
          Superseded(s.log, i, j, k))
  }

  lemma HistoryPersists(log: seq<Event>, e: Event, i: nat, j: nat, key: CacheKey)
    requires j <= |log|
    ensures StoredBetween(log, i, j, key) ==> StoredBetween(log + [e], i, j, key)
    ensures Superseded(log, i, j, key) ==> Superseded(log + [e], i, j, key)
    ensures StoredBetween(log, i, |log|, key) ==> StoredBetween(log + [e], i, |log| + 1, key)
    ensures Superseded(log, i, |log|, key) ==> Superseded(log + [e], i, |log| + 1, key)
  {
    var now := log + [e];
    if StoredBetween(log, i, |log|, key) {
      var m :| i < m < |log| && log[m].Stored? && log[m].key == key && (StoredBetween(log, i, j, key) ==> m < j);
      assert now[m] == log[m];
    }
    if Superseded(log, i, |log|, key) {
      var m :| i < m < |log| && Ends(log, i, m, key) && (Superseded(log, i, j, key) ==> m < j);
      EndsPersists(log, e, i, m, key);
    }
  }

  lemma EndsPersists(log: seq<Event>, e: Event, i: nat, m: nat, key: CacheKey)
    requires m < |log| && Ends(log, i, m, key)
    ensures Ends(log + [e], i, m, key)
  {
    assert (log + [e])[m] == log[m];
    if StoredBetween(log, i, m, key) {
      var l :| i < l < m && log[l].Stored? && log[l].key == key;
      assert (log + [e])[l] == log[l];
    }
  }

  lemma EvictedOrKept(s: Shared, key: CacheKey, value: Prediction, invoked: bool, k: CacheKey)
    requires WellFormed(s)
    ensures key in StoreSection(s, key, value, invoked).entries
    ensures k in s.entries ==> k in StoreSection(s, key, value, invoked).entries || k in EvictedBy(s, key)
  {
    var grown := MoveToEnd(s.order, key);
    MoveToEndSpec(s.order, key);
    CutKeepsNewest(grown, s.size);
    if |grown| > s.size {
      assert grown == grown[..|grown| - s.size] + grown[|grown| - s.size..];
    }
  }

  lemma ProducerKeepsProducing(callers: seq<Phase>, t: nat, p: Phase, k: CacheKey)
    requires t < |callers| && (callers[t].Producing? && callers[t].key == k ==> p == callers[t])
    ensures BeingProduced(callers, k) ==> BeingProduced(callers[t := p], k)
  {
    if BeingProduced(callers, k) {
      var u :| 0 <= u < |callers| && callers[u].Producing? && callers[u].key == k;
      assert callers[t := p][u].Producing? && callers[t := p][u].key == k;
    }
  }

  lemma FinishKeepsAccount(s: System, t: nat, value: Prediction, invoked: bool, i: nat, k: CacheKey)
    requires WellFormed(s.shared) && Enabled(s, Finish(t, value, invoked))
    requires i < |s.log| && Accounted(s, i, k)
    ensures Accounted(Next(s, Finish(t, value, invoked)), i, k)
  {
    var n := Next(s, Finish(t, value, invoked));
    var key := s.callers[t].key;
    var e := n.log[|s.log|];
    HistoryPersists(s.log, e, i, |s.log|, k);
    EvictedOrKept(s.shared, key, value, invoked, k);
    if k == key {
      assert n.log[|s.log|].Stored?;
    } else {
      ProducerKeepsProducing(s.callers, t, n.callers[t], k);
      if k in s.shared.entries && k !in n.shared.entries {
        assert Ends(n.log, i, |s.log|, k);
      }
    }
  }

  lemma AccountedStep(s: System, l: Label, i: nat, k: CacheKey)
    requires WellFormed(s.shared) && Enabled(s, l)
    requires i < |s.log| && Accounted(s, i, k)
    ensures Accounted(Next(s, l), i, k)
  {
    var n := Next(s, l);
    if |n.log| > |s.log| {
      assert n.log == s.log + [n.log[|s.log|]];
      HistoryPersists(s.log, n.log[|s.log|], i, |s.log|, k);
    }
    match l {
      case Finish(t, value, invoked) => FinishKeepsAccount(s, t, value, invoked, i, k);
      case Fail(t) =>
        if s.callers[t].key == k {
          assert Ends(n.log, i, |s.log|, k);
        } else {
          ProducerKeepsProducing(s.callers, t, n.callers[t], k);
        }
      case Clear =>
        if StoredBetween(s.log, i, |s.log|, k) {
          HistoryPersists(s.log, Cleared, i, |s.log|, k);
          assert Ends(n.log, i, |s.log|, k);
        }
      case Arrive(key) =>
        if BeingProduced(s.callers, k) {
          var u :| 0 <= u < |s.callers| && s.callers[u].Producing? && s.callers[u].key == k;
          assert n.callers[u].Producing?;
        }
      case _ =>
        ProducerKeepsProducing(s.callers, l.caller, n.callers[l.caller], k);
    }
  }

  lemma SingleFlightStep(s: System, l: Label)
    requires WellFormed(s.shared) && Coordinated(s) && SingleFlighted(s) && Enabled(s, l)
    ensures SingleFlighted(Next(s, l))
  {
    var n := Next(s, l);
    forall i, k | 0 <= i < |n.log| && n.log[i] == Started(k) ensures Accounted(n, i, k) {
      if i < |s.log| {
        assert s.log[i] == Started(k);
        AccountedStep(s, l, i, k);
      } else {
        assert n.callers[l.caller].Producing? && n.callers[l.caller].key == k;
      }
    }
    forall i, j, k | 0 <= i < j < |n.log| && n.log[i] == Started(k) && n.log[j] == Started(k)
      ensures Superseded(n.log, i, j, k)
    {
      assert s.log[i] == Started(k);
      if |n.log| > |s.log| {
        assert n.log == s.log + [n.log[|s.log|]];
        if j == |s.log| {
          NotProducedTwice(s, l.caller);
        }
        HistoryPersists(s.log, n.log[|s.log|], i, j, k);
      }
    }
  }

  /** A caller becomes the producer only when nobody is producing its key. */
  lemma NotProducedTwice(s: System, t: nat)
    requires Coordinated(s) && t < |s.callers| && s.callers[t].Ready?
    ensures s.callers[t].key !in s.shared.inflight ==> !BeingProduced(s.callers, s.callers[t].key)
  {
    if BeingProduced(s.callers, s.callers[t].key) {
      var u :| 0 <= u < |s.callers| && s.callers[u].Producing? && s.callers[u].key == s.callers[t].key;
      assert Holds(s.callers[u], s.callers[u].key);
    }
  }

  // ---- Safety over every run ----

  ghost predicate Invariant(s: System) {
    WellFormed(s.shared) && Coordinated(s) && InRecencyOrder(s) && Genuine(s) && CountersSound(s) && SingleFlighted(s)
  }

  lemma InvariantStep(s: System, l: Label)
    requires Invariant(s) && Enabled(s, l)
    ensures Invariant(Next(s, l))
  {
    CacheWellFormedStep(s, l);
    ExclusiveStep(s, l);
    EventsStep(s, l);
    RecencyStep(s, l);
    GenuineStep(s, l);
    CountersStep(s, l);
    SingleFlightStep(s, l);
  }

  lemma {:induction false} InvariantOverRuns(s: System, labels: seq<Label>)
    requires Invariant(s) && CanRun(s, labels)
    ensures Invariant(Run(s, labels))
    decreases |labels|
  {
    if labels != [] {
      InvariantStep(s, labels[0]);
      InvariantOverRuns(Next(s, labels[0]), labels[1..]);
    }
  }

  /** In every interleaving of any number of callers, failures and clears: one producer per key at a time;
      a second production of a key only after the first ended; every returned value was stored for its key;
      and the counters balance. */
  lemma SafeInEveryInterleaving(cacheSize: int, labels: seq<Label>)
    requires CanRun(Initial(cacheSize), labels)
    ensures var s := Run(Initial(cacheSize), labels);
      && (forall t, u :: 0 <= t < u < |s.callers| && Holds(s.callers[t], s.callers[u].key) ==>
          !Holds(s.callers[u], s.callers[u].key))
      && (forall k :: k in s.shared.inflight <==> exists t :: 0 <= t < |s.callers| && Holds(s.callers[t], k))
      && (forall i, j, k :: 0 <= i < j < |s.log| && s.log[i] == Started(k) && s.log[j] == Started(k) ==>
          Superseded(s.log, i, j, k))
      && (forall t :: 0 <= t < |s.callers| && s.callers[t].Returned? ==>
          WasStored(s.log, s.callers[t].key, s.callers[t].value))
      && s.shared.misses == Count(s.log).completed + Count(s.log).failed + |s.shared.inflight|
      && s.shared.inferences <= Count(s.log).stored
  {
    InvariantOverRuns(Initial(cacheSize), labels);
    var s := Run(Initial(cacheSize), labels);
    forall k, t | 0 <= t < |s.callers| && Holds(s.callers[t], k) ensures k in s.shared.inflight {
      assert Holds(s.callers[t], s.callers[t].key);
    }
  }

  lemma {:induction false} SizeNeverChanges(s: System, labels: seq<Label>)
    requires CanRun(s, labels)
    ensures Run(s, labels).shared.size == s.shared.size
    decreases |labels|
  {
    if labels != [] {
      SizeNeverChanges(Next(s, labels[0]), labels[1..]);
    }
  }

  /** What an ordered cache holds when it is the newest `size` keys of a touch history. */
  ghost predicate MostRecentlyUsed(s: Shared, touched: seq<CacheKey>, size: nat) {
    && s.order == LastN(Recency(touched), size)
    && |s.entries| <= size
    && (forall k :: k in s.entries <==> TouchedWithin(touched, k, size))
  }

  lemma RecencyOrderIsMostRecentlyUsed(s: Shared, touched: seq<CacheKey>)
    requires WellFormed(s) && s.order == LastN(Recency(touched), s.size)
    ensures MostRecentlyUsed(s, touched, s.size)
  {
    forall k ensures k in s.entries <==> TouchedWithin(touched, k, s.size) {
      RecentIff(touched, k, s.size);
    }
    DistinctCount(s.order, s.entries.Keys);
  }

  /** After any run the cache is the `max(1, cache_size)` most recently touched keys since the last clear:
      in recency order, and a touched key is cached exactly when fewer keys than that were touched after it. */
  lemma CacheIsMostRecentlyUsed(cacheSize: int, labels: seq<Label>)
    requires CanRun(Initial(cacheSize), labels)
    ensures MostRecentlyUsed(Run(Initial(cacheSize), labels).shared, Touches(Run(Initial(cacheSize), labels).log),
                             if cacheSize >= 1 then cacheSize else 1)
  {
    InvariantOverRuns(Initial(cacheSize), labels);
    SizeNeverChanges(Initial(cacheSize), labels);
    var s := Run(Initial(cacheSize), labels);
    RecencyOrderIsMostRecentlyUsed(s.shared, Touches(s.log));
  }

  lemma {:induction false} DistinctCount(xs: seq<CacheKey>, keys: set<CacheKey>)
    requires forall k :: k in keys <==> k in xs
    ensures |keys| <= |xs|
  {
    if xs == [] {
      assert keys == {};
    } else {
      var front, last := xs[..|xs| - 1], xs[|xs| - 1];
      assert xs == front + [last];
      var rest := set k | k in front;
      assert keys == rest + {last};
      DistinctCount(front, rest);
    }
  }

  // ---- Liveness: no lost wake-up, and every call ends ----

  /** Steps taken by callers, as opposed to new arrivals and clears from outside. */
  predicate IsCallerStep(l: Label) {
    !l.Arrive? && !l.Clear?
  }

  /** Some caller can always take a step until all calls have returned or raised. */
  lemma NoLostWakeUp(s: System, t: nat) returns (l: Label)
    requires Coordinated(s) && t < |s.callers| && !Done(s.callers[t])
    ensures IsCallerStep(l) && Enabled(s, l)
  {
    match s.callers[t] {
      case Ready(_) => l := DoLookup(t);
      case Producing(_, _) => l := Fail(t);
      case Closing(_, _, _) => l := Close(t);
      case Waiting(key, event) =>
        if event in s.shared.fired {
          l := Resume(t);
        } else {
          var u :| 0 <= u < |s.callers| && Holds(s.callers[u], key);
          l := if s.callers[u].Producing? then Fail(u) else Close(u);
        }
    }
  }

  /** How far a call is from its next decision; waiting on an unset event costs nothing. */
  function Rank(p: Phase, fired: set<EventId>): nat {
    match p
    case Ready(_) => 4
    case Waiting(_, event) => if event in fired then 5 else 0
    case Producing(_, _) => 3
    case Closing(_, _, _) => 2
    case _ => 0
  }

  function Unfinished(callers: seq<Phase>): (n: nat)
    ensures n <= |callers|
  {
    if callers == [] then 0
    else Unfinished(callers[..|callers| - 1]) + (if Done(callers[|callers| - 1]) then 0 else 1)
  }

  function RankSum(callers: seq<Phase>, fired: set<EventId>): (n: nat)
    ensures n <= 5 * |callers|
  {
    if callers == [] then 0
    else RankSum(callers[..|callers| - 1], fired) + Rank(callers[|callers| - 1], fired)
  }

  /** Unfinished calls first, then the ranks: the sum of ranks never outweighs one finished call. */
  function Measure(s: System): nat {
    Weigh(Unfinished(s.callers), |s.callers|, RankSum(s.callers, s.shared.fired))
  }

  function Weigh(unfinished: nat, callers: nat, ranks: nat): nat {
    unfinished * (5 * callers + 1) + ranks
  }

  lemma {:induction false} UpdateSums(callers: seq<Phase>, t: nat, p: Phase, fired: set<EventId>)
    requires t < |callers|
    ensures RankSum(callers[t := p], fired) == RankSum(callers, fired) - Rank(callers[t], fired) + Rank(p, fired)
    ensures Unfinished(callers[t := p]) ==
      Unfinished(callers) - (if Done(callers[t]) then 0 else 1) + (if Done(p) then 0 else 1)
  {
    var n := |callers| - 1;
    var now := callers[t := p];
    if t < n {
      UpdateSums(callers[..n], t, p, fired);
      assert now[..n] == callers[..n][t := p];
    } else {
      assert now[..n] == callers[..n];
    }
  }

  /** Every step of a caller brings the whole system closer to the end, even when a woken waiter finds its entry
      evicted and must produce it again; a clear does not push it away. */
  lemma EveryStepProgresses(s: System, l: Label)
    requires Coordinated(s) && Enabled(s, l) && !l.Arrive?
    ensures IsCallerStep(l) ==> Measure(Next(s, l)) < Measure(s)
    ensures l.Clear? ==> Measure(Next(s, l)) == Measure(s)
  {
    if IsCallerStep(l) {
      if Done(Next(s, l).callers[l.caller]) {
        FinishingProgresses(s, l);
      } else {
        MovingProgresses(s, l);
      }
    }
  }

  lemma FinishingProgresses(s: System, l: Label)
    requires Enabled(s, l) && IsCallerStep(l) && Done(Next(s, l).callers[l.caller])
    ensures Measure(Next(s, l)) < Measure(s)
  {
    var n := Next(s, l);
    StepMovesOneCaller(s, l);
    hide *;
    UpdateSums(s.callers, l.caller, n.callers[l.caller], s.shared.fired);
    MeasureIs(s);
    MeasureIs(n);
    FinishingOutweighsRanks(Unfinished(n.callers), |n.callers|, RankSum(n.callers, n.shared.fired),
                            RankSum(s.callers, s.shared.fired));
  }

  lemma MovingProgresses(s: System, l: Label)
    requires Coordinated(s) && Enabled(s, l) && IsCallerStep(l) && !Done(Next(s, l).callers[l.caller])
    ensures Measure(Next(s, l)) < Measure(s)
  {
    var n := Next(s, l);
    StepMovesOneCaller(s, l);
    RankDrops(s, l);
    hide *;
    UpdateSums(s.callers, l.caller, n.callers[l.caller], s.shared.fired);
    MeasureIs(s);
    MeasureIs(n);
    LowerRanksWeighLess(Unfinished(s.callers), |s.callers|, RankSum(n.callers, n.shared.fired),
                        RankSum(s.callers, s.shared.fired));
  }

  lemma MeasureIs(s: System)
    ensures Measure(s) == Weigh(Unfinished(s.callers), |s.callers|, RankSum(s.callers, s.shared.fired))
  {
  }

  lemma StepMovesOneCaller(s: System, l: Label)
    requires Enabled(s, l) && IsCallerStep(l)
    ensures l.caller < |s.callers| && !Done(s.callers[l.caller])
    ensures Next(s, l).callers == s.callers[l.caller := Next(s, l).callers[l.caller]]
  {
  }

  lemma FinishingOutweighsRanks(unfinished: nat, callers: nat, ranks: nat, before: nat)
    requires ranks <= 5 * callers
    ensures Weigh(unfinished, callers, ranks) < Weigh(unfinished + 1, callers, before)
  {
  }

  lemma LowerRanksWeighLess(unfinished: nat, callers: nat, ranks: nat, before: nat)
    requires ranks < before
    ensures Weigh(unfinished, callers, ranks) < Weigh(unfinished, callers, before)
  {
  }

  /** A caller that does not finish gets a lower rank; in particular it never waits on an event already set. */
  lemma RankDrops(s: System, l: Label)
    requires Coordinated(s) && Enabled(s, l) && IsCallerStep(l) && !Done(Next(s, l).callers[l.caller])
    ensures Rank(Next(s, l).callers[l.caller], s.shared.fired) < Rank(s.callers[l.caller], s.shared.fired)
    ensures Next(s, l).shared.fired == s.shared.fired && !Done(s.callers[l.caller])
  {
  }

  function CallerSteps(labels: seq<Label>): nat {
    if labels == [] then 0
    else (if IsCallerStep(labels[0]) then 1 else 0) + CallerSteps(labels[1..])
  }

  /** A run without new arrivals takes at most `Measure` caller steps, however it is scheduled, whatever fails and
      whenever the cache is cleared; and a run in which no caller can step any more has finished every call. */
  lemma {:induction false} EveryRunEnds(s: System, labels: seq<Label>)
    requires Coordinated(s) && CanRun(s, labels)
    requires forall i :: 0 <= i < |labels| ==> !labels[i].Arrive?
    ensures CallerSteps(labels) + Measure(Run(s, labels)) <= Measure(s)
    ensures (forall l :: IsCallerStep(l) ==> !Enabled(Run(s, labels), l)) ==>
      (forall t :: 0 <= t < |Run(s, labels).callers| ==> Done(Run(s, labels).callers[t]))
    decreases |labels|
  {
    if labels == [] {
      forall t | 0 <= t < |s.callers| && !Done(s.callers[t]) ensures exists l :: IsCallerStep(l) && Enabled(s, l) {
        var l := NoLostWakeUp(s, t);
      }
    } else {
      EveryStepProgresses(s, labels[0]);
      ExclusiveStep(s, labels[0]);
      EventsStep(s, labels[0]);
      EveryRunEnds(Next(s, labels[0]), labels[1..]);
    }
  }

  // ---- How calls end, told from what the outside world decided ----

  lemma {:induction false} RunOneMore(s: System, labels: seq<Label>, l: Label)
    ensures CanRun(s, labels + [l]) <==> CanRun(s, labels) && Enabled(Run(s, labels), l)
    ensures CanRun(s, labels + [l]) ==> Run(s, labels + [l]) == Next(Run(s, labels), l)
    decreases |labels|
  {
    hide Enabled, Next;
    if labels == [] {
      assert [] + [l] == [l] && [l][1..] == [];
    } else {
      assert (labels + [l])[1..] == labels[1..] + [l];
      if Enabled(s, labels[0]) {
        RunOneMore(Next(s, labels[0]), labels[1..], l);
      }
    }
  }

  function Arrivals(labels: seq<Label>): nat {
    if labels == [] then 0
    else Arrivals(labels[..|labels| - 1]) + if labels[|labels| - 1].Arrive? then 1 else 0
  }

  /** What caller `t` asked for when it arrived. */
  function AskedFor(labels: seq<Label>, t: nat): CacheKey
    requires t < Arrivals(labels)
  {
    var front, last := labels[..|labels| - 1], labels[|labels| - 1];
    if t < Arrivals(front) then AskedFor(front, t) else last.key
  }

  /** What inference last did for caller `t`: it answered, or it raised. */
  function LastInference(labels: seq<Label>, t: nat): (inference: Option<Label>)
    ensures inference.Some? ==> inference.value.Finish? || inference.value.Fail?
  {
    if labels == [] then None
    else
      var last := labels[|labels| - 1];
      if (last.Finish? || last.Fail?) && last.caller == t then Some(last)
      else LastInference(labels[..|labels| - 1], t)
  }

  /** At label `m` caller `t` looked its key up and found this value. */
  ghost predicate FoundAt(start: System, labels: seq<Label>, m: nat, t: nat, key: CacheKey, value: Prediction)
    requires CanRun(start, labels)
  {
    && m < |labels| && labels[m] == DoLookup(t)
    && CanRun(start, labels[..m])
    && var entries := Run(start, labels[..m]).shared.entries; key in entries && entries[key] == value
  }

  /** Where a call stands, given what inference did for it. */
  ghost predicate StandsAs(start: System, labels: seq<Label>, t: nat, p: Phase)
    requires CanRun(start, labels)
  {
    var inference := LastInference(labels, t);
    match p
    case Closing(_, _, result) =>
      && inference.Some?
      && result == (if inference.value.Finish? then Some(inference.value.value) else None)
    case Raised(_) => inference.Some? && inference.value.Fail?
    case Returned(key, value) =>
      if inference.Some? then inference.value.Finish? && inference.value.value == value
      else exists m: nat :: FoundAt(start, labels, m, t, key, value)
    case _ => inference.None?
  }

  ghost predicate AllStand(start: System, labels: seq<Label>)
    requires CanRun(start, labels)
  {
    var callers := Run(start, labels).callers;
    && |callers| == Arrivals(labels)
    && forall t :: 0 <= t < |callers| ==>
         callers[t].key == AskedFor(labels, t) && StandsAs(start, labels, t, callers[t])
  }

  lemma FoundStays(start: System, labels: seq<Label>, l: Label, t: nat, p: Phase)
    requires CanRun(start, labels) && CanRun(start, labels + [l])
    requires LastInference(labels + [l], t) == LastInference(labels, t)
    ensures StandsAs(start, labels, t, p) ==> StandsAs(start, labels + [l], t, p)
  {
    hide CanRun, Run, LastInference;
    if p.Returned? && LastInference(labels, t).None? && StandsAs(start, labels, t, p) {
      var m: nat :| FoundAt(start, labels, m, t, p.key, p.value);
      assert (labels + [l])[..m] == labels[..m];
      assert FoundAt(start, labels + [l], m, t, p.key, p.value);
    }
  }

  lemma LabelsOneMore(labels: seq<Label>, l: Label, t: nat)
    ensures Arrivals(labels + [l]) == Arrivals(labels) + if l.Arrive? then 1 else 0
    ensures t < Arrivals(labels) ==> AskedFor(labels + [l], t) == AskedFor(labels, t)
    ensures l.Arrive? ==> AskedFor(labels + [l], Arrivals(labels)) == l.key
    ensures LastInference(labels + [l], t) ==
      if (l.Finish? || l.Fail?) && l.caller == t then Some(l) else LastInference(labels, t)
  {
    assert (labels + [l])[..|labels|] == labels;
  }

  lemma OneCallStands(start: System, labels: seq<Label>, l: Label, t: nat)
    requires CanRun(start, labels) && Enabled(Run(start, labels), l) && t < |Run(start, labels).callers|
    requires StandsAs(start, labels, t, Run(start, labels).callers[t])
    ensures CanRun(start, labels + [l])
    ensures t < |Next(Run(start, labels), l).callers|
    ensures var p := Next(Run(start, labels), l).callers[t];
      p.key == Run(start, labels).callers[t].key && StandsAs(start, labels + [l], t, p)
  {
    hide CanRun, Run, StoreSection, WakeSection, ClearSection, EvictedBy, FoundAt, LastInference, MoveToEnd;
    RunOneMore(start, labels, l);
    LabelsOneMore(labels, l, t);
    var before := Run(start, labels);
    var p := Next(before, l).callers[t];
    if p == before.callers[t] {
      if LastInference(labels + [l], t) == LastInference(labels, t) {
        FoundStays(start, labels, l, t, p);
      }
    } else if l.DoLookup? && p.Returned? {
      FoundNow(start, labels, t, p);
    }
  }

  lemma FoundNow(start: System, labels: seq<Label>, t: nat, p: Phase)
    requires CanRun(start, labels) && CanRun(start, labels + [DoLookup(t)]) && p.Returned?
    requires var entries := Run(start, labels).shared.entries; p.key in entries && entries[p.key] == p.value
    ensures FoundAt(start, labels + [DoLookup(t)], |labels|, t, p.key, p.value)
  {
    assert (labels + [DoLookup(t)])[..|labels|] == labels;
    hide Run, CanRun;
  }

  lemma {:induction false} EveryCallStands(start: System, labels: seq<Label>)
    requires start.callers == [] && CanRun(start, labels)
    ensures AllStand(start, labels)
    decreases |labels|
  {
    if labels != [] {
      var front, l := labels[..|labels| - 1], labels[|labels| - 1];
      assert labels == front + [l];
      RunOneMore(start, front, l);
      EveryCallStands(start, front);
      var before, now := Run(start, front), Run(start, labels);
      hide CanRun, Run, StandsAs, LastInference, AskedFor, Arrivals, Enabled;
      CallersOneMore(before, l);
      LabelsOneMore(front, l, 0);
      forall t: nat | t < |now.callers|
        ensures now.callers[t].key == AskedFor(labels, t) && StandsAs(start, labels, t, now.callers[t])
      {
        LabelsOneMore(front, l, t);
        if t < |before.callers| {
          OneCallStands(start, front, l, t);
        } else {
          NewcomerStands(start, front, l.key);
        }
      }
    }
  }

  lemma CallersOneMore(s: System, l: Label)
    requires Enabled(s, l)
    ensures |Next(s, l).callers| == |s.callers| + if l.Arrive? then 1 else 0
    ensures l.Arrive? ==> Next(s, l).callers[|s.callers|] == Ready(l.key)
  {
  }

  lemma NewcomerStands(start: System, labels: seq<Label>, key: CacheKey)
    requires start.callers == [] && CanRun(start, labels) && CanRun(start, labels + [Arrive(key)])
    requires |Run(start, labels).callers| == Arrivals(labels)
    ensures StandsAs(start, labels + [Arrive(key)], Arrivals(labels), Ready(key))
  {
    NoInferenceYet(start, labels, Arrivals(labels));
    LabelsOneMore(labels, Arrive(key), Arrivals(labels));
  }

  lemma {:induction false} NoInferenceYet(start: System, labels: seq<Label>, t: nat)
    requires CanRun(start, labels) && |Run(start, labels).callers| <= t
    ensures LastInference(labels, t).None?
    decreases |labels|
  {
    if labels != [] {
      hide CanRun, Run, Next, LastInference;
      var front, l := labels[..|labels| - 1], labels[|labels| - 1];
      assert labels == front + [l];
      RunOneMore(start, front, l);
      CallersOneMore(Run(start, front), l);
      NoInferenceYet(start, front, t);
      LabelsOneMore(front, l, t);
    }
  }

  // ---- How many calls end which way ----

  function Ended(callers: seq<Phase>, raised: bool): nat {
    if callers == [] then 0
    else
      var last := callers[|callers| - 1];
      Ended(callers[..|callers| - 1], raised) + if (if raised then last.Raised? else last.Returned?) then 1 else 0
  }

  /** How often a caller whose inference raised, or answered, has left its `finally` block. */
  function ClosedAfter(labels: seq<Label>, raised: bool): nat {
    if labels == [] then 0
    else
      var front, last := labels[..|labels| - 1], labels[|labels| - 1];
      ClosedAfter(front, raised) +
      if last.Close? && LastInference(front, last.caller).Some?
         && LastInference(front, last.caller).value.Fail? == raised then 1 else 0
  }

  lemma {:induction false} EndedUpdate(callers: seq<Phase>, t: nat, p: Phase, raised: bool)
    requires t < |callers| && !Done(callers[t])
    ensures Ended(callers[t := p], raised) ==
      Ended(callers, raised) + if (if raised then p.Raised? else p.Returned?) then 1 else 0
  {
    var n := |callers| - 1;
    var now := callers[t := p];
    if t < n {
      EndedUpdate(callers[..n], t, p, raised);
      assert now[..n] == callers[..n][t := p];
    } else {
      assert now[..n] == callers[..n];
    }
  }

  lemma ClosedOneMore(labels: seq<Label>, l: Label, raised: bool)
    ensures ClosedAfter(labels + [l], raised) == ClosedAfter(labels, raised) +
      if l.Close? && LastInference(labels, l.caller).Some? && LastInference(labels, l.caller).value.Fail? == raised
      then 1 else 0
  {
    assert (labels + [l])[..|labels|] == labels;
    hide LastInference;
  }

  /** Calls that returned are hits and closed answers; calls that raised are closed failures. */
  ghost predicate EndsAddUp(start: System, labels: seq<Label>)
    requires CanRun(start, labels)
  {
    var s := Run(start, labels);
    && Ended(s.callers, true) == ClosedAfter(labels, true)
    && Ended(s.callers, false) + start.shared.hits == ClosedAfter(labels, false) + s.shared.hits
  }

  lemma {:induction false} EndsAlwaysAddUp(start: System, labels: seq<Label>)
    requires start.callers == [] && CanRun(start, labels)
    ensures EndsAddUp(start, labels)
    decreases |labels|
  {
    if labels == [] {
      assert Run(start, labels) == start && Ended([], true) == Ended([], false) == 0;
    } else {
      var front, l := labels[..|labels| - 1], labels[|labels| - 1];
      assert labels == front + [l];
      RunOneMore(start, front, l);
      EndsAlwaysAddUp(start, front);
      EveryCallStands(start, front);
      EndsStep(start, front, l);
    }
  }

  lemma EndsStep(start: System, labels: seq<Label>, l: Label)
    requires CanRun(start, labels) && CanRun(start, labels + [l]) && Enabled(Run(start, labels), l)
    requires Run(start, labels + [l]) == Next(Run(start, labels), l)
    requires AllStand(start, labels) && EndsAddUp(start, labels)
    ensures EndsAddUp(start, labels + [l])
  {
    hide CanRun, Run, StoreSection, WakeSection, ClearSection, EvictedBy, FoundAt, LastInference, MoveToEnd, Ended,
      ClosedAfter, AskedFor, Arrivals;
    var s := Run(start, labels);
    ClosedOneMore(labels, l, true);
    ClosedOneMore(labels, l, false);
    SharedHits(s, l);
    if IsCallerStep(l) {
      StepMovesOneCaller(s, l);
      EndedUpdate(s.callers, l.caller, Next(s, l).callers[l.caller], true);
      EndedUpdate(s.callers, l.caller, Next(s, l).callers[l.caller], false);
    } else if l.Arrive? {
      EndedNewcomer(s.callers, l.key);
    }
  }

  lemma EndedNewcomer(callers: seq<Phase>, key: CacheKey)
    ensures Ended(callers + [Ready(key)], true) == Ended(callers, true)
    ensures Ended(callers + [Ready(key)], false) == Ended(callers, false)
  {
    assert (callers + [Ready(key)])[..|callers|] == callers;
  }

  /** Only a lookup that returns counts a hit. */
  lemma SharedHits(s: System, l: Label)
    requires Enabled(s, l)
    ensures Next(s, l).shared.hits ==
      s.shared.hits + if l.DoLookup? && Next(s, l).callers[l.caller].Returned? then 1 else 0
  {
  }

  // ---- The ends of calls over every run ----

  lemma {:induction false} DoneForGood(s: System, labels: seq<Label>, t: nat)
    requires CanRun(s, labels) && t < |s.callers| && Done(s.callers[t])
    ensures t < |Run(s, labels).callers| && Run(s, labels).callers[t] == s.callers[t]
    decreases |labels|
  {
    if labels != [] {
      DoneForGood(Next(s, labels[0]), labels[1..], t);
    }
  }

  lemma {:induction false} RunInTwo(s: System, xs: seq<Label>, ys: seq<Label>)
    requires CanRun(s, xs + ys)
    ensures CanRun(s, xs) && CanRun(Run(s, xs), ys) && Run(Run(s, xs), ys) == Run(s, xs + ys)
    decreases |xs|
  {
    if xs == [] {
      assert [] + ys == ys;
    } else {
      assert (xs + ys)[1..] == xs[1..] + ys;
      RunInTwo(Next(s, xs[0]), xs[1..], ys);
    }
  }

  lemma {:induction false} KeysStay(s: System, labels: seq<Label>, t: nat)
    requires CanRun(s, labels) && t < |s.callers|
    ensures t < |Run(s, labels).callers| && Run(s, labels).callers[t].key == s.callers[t].key
    decreases |labels|
  {
    if labels != [] {
      KeysStay(Next(s, labels[0]), labels[1..], t);
    }
  }

  /** Whoever finds its key in the cache has returned what it found there. */
  lemma FoundReturns(start: System, labels: seq<Label>, m: nat, t: nat, key: CacheKey, value: Prediction)
    requires CanRun(start, labels) && FoundAt(start, labels, m, t, key, value)
    requires t < |Run(start, labels).callers| && Run(start, labels).callers[t].key == key
    ensures Run(start, labels).callers[t] == Returned(key, value)
  {
    var before, rest := labels[..m], labels[m..];
    assert labels == before + rest;
    RunInTwo(start, before, rest);
    var mid := Run(start, before);
    KeysStay(mid, rest, t);
    DoneForGood(Next(mid, rest[0]), rest[1..], t);
  }

  ghost predicate AllFoundReturn(start: System, labels: seq<Label>)
    requires CanRun(start, labels)
  {
    forall m: nat, t: nat, value ::
      t < |Run(start, labels).callers| && FoundAt(start, labels, m, t, Run(start, labels).callers[t].key, value) ==>
        Run(start, labels).callers[t] == Returned(Run(start, labels).callers[t].key, value)
  }

  lemma FoundAlwaysReturn(start: System, labels: seq<Label>)
    requires CanRun(start, labels)
    ensures AllFoundReturn(start, labels)
  {
    hide CanRun, Run, FoundAt;
    forall m: nat, t: nat, value |
      t < |Run(start, labels).callers| && FoundAt(start, labels, m, t, Run(start, labels).callers[t].key, value)
      ensures Run(start, labels).callers[t] == Returned(Run(start, labels).callers[t].key, value)
    {
      FoundReturns(start, labels, m, t, Run(start, labels).callers[t].key, value);
    }
  }

  /** How a call ends, given what inference last did for it: it raised exactly when inference raised; when inference
      answered, it returned that answer; when inference was never asked, it returned what it found in the cache. */
  ghost predicate EndsAs(start: System, labels: seq<Label>, p: Phase, t: nat)
    requires CanRun(start, labels)
  {
    var inference := LastInference(labels, t);
    && (p.Raised? <==> inference.Some? && inference.value.Fail?)
    && (inference.Some? && inference.value.Finish? ==> p == Returned(p.key, inference.value.value))
    && (inference.None? ==> p.Returned? && exists m: nat :: FoundAt(start, labels, m, t, p.key, p.value))
  }

  lemma StandingEnds(start: System, labels: seq<Label>, p: Phase, t: nat)
    requires CanRun(start, labels) && StandsAs(start, labels, t, p) && Done(p)
    ensures EndsAs(start, labels, p, t)
  {
    hide CanRun, FoundAt, LastInference;
  }

  /** In every interleaving each call keeps the key it arrived with and ends as inference went for it; whoever finds its
      key in the cache returns what it found. As many calls raised as failures were closed, and as many returned as
      there were hits and closed answers; the log counts the same. */
  lemma CallsEndAsInferenceWent(cacheSize: int, labels: seq<Label>)
    requires CanRun(Initial(cacheSize), labels)
    ensures var start, s := Initial(cacheSize), Run(Initial(cacheSize), labels);
      && |s.callers| == Arrivals(labels)
      && (forall t :: 0 <= t < |s.callers| ==> s.callers[t].key == AskedFor(labels, t))
      && (forall t :: 0 <= t < |s.callers| && Done(s.callers[t]) ==> EndsAs(start, labels, s.callers[t], t))
      && AllFoundReturn(start, labels)
      && Ended(s.callers, true) == ClosedAfter(labels, true) == Count(s.log).failed
      && Ended(s.callers, false) - s.shared.hits == ClosedAfter(labels, false) == Count(s.log).completed
  {
    hide *;
    var start, s := Initial(cacheSize), Run(Initial(cacheSize), labels);
    NobodyYet(cacheSize);
    EveryCallStands(start, labels);
    StandMeans(start, labels);
    EndsAlwaysAddUp(start, labels);
    AddUpMeans(start, labels);
    LogAddsUp(start, labels);
    FoundAlwaysReturn(start, labels);
    forall t: nat | t < |s.callers| && Done(s.callers[t]) ensures EndsAs(start, labels, s.callers[t], t) {
      StandingEnds(start, labels, s.callers[t], t);
    }
  }

  lemma NobodyYet(cacheSize: int)
    ensures var start := Initial(cacheSize);
      start.callers == [] && start.shared.hits == 0 && Count(start.log) == Tally(0, 0, 0, 0, 0, 0)
  {
  }

  lemma StandMeans(start: System, labels: seq<Label>)
    requires CanRun(start, labels) && AllStand(start, labels)
    ensures var callers := Run(start, labels).callers;
      && |callers| == Arrivals(labels)
      && forall t :: 0 <= t < |callers| ==>
           callers[t].key == AskedFor(labels, t) && StandsAs(start, labels, t, callers[t])
  {
    hide CanRun, Run, StandsAs, AskedFor, Arrivals;
  }

  lemma AddUpMeans(start: System, labels: seq<Label>)
    requires CanRun(start, labels) && EndsAddUp(start, labels) && start.shared.hits == 0
    ensures var s := Run(start, labels);
      && Ended(s.callers, true) == ClosedAfter(labels, true)
      && Ended(s.callers, false) == ClosedAfter(labels, false) + s.shared.hits
  {
    hide CanRun, Run, Ended, ClosedAfter;
  }

  /** The log counts closed failures and closed answers. */
  lemma {:induction false} LogAddsUp(start: System, labels: seq<Label>)
    requires start.callers == [] && CanRun(start, labels) && Count(start.log) == Tally(0, 0, 0, 0, 0, 0)
    ensures Count(Run(start, labels).log).failed == ClosedAfter(labels, true)
    ensures Count(Run(start, labels).log).completed == ClosedAfter(labels, false)
    decreases |labels|
  {
    if labels == [] {
      assert Run(start, labels) == start;
    } else {
      var front, l := labels[..|labels| - 1], labels[|labels| - 1];
      assert labels == front + [l];
      RunOneMore(start, front, l);
      LogAddsUp(start, front);
      EveryCallStands(start, front);
      StandMeans(start, front);
      LogStep(start, front, l);
    }
  }

  lemma LogStep(start: System, labels: seq<Label>, l: Label)
    requires CanRun(start, labels) && Enabled(Run(start, labels), l)
    requires AllStand(start, labels)
    ensures var before, now := Count(Run(start, labels).log), Count(Next(Run(start, labels), l).log);
      && now.failed - before.failed == ClosedAfter(labels + [l], true) - ClosedAfter(labels, true)
      && now.completed - before.completed == ClosedAfter(labels + [l], false) - ClosedAfter(labels, false)
  {
    hide CanRun, Run, StoreSection, WakeSection, ClearSection, EvictedBy, FoundAt, LastInference, MoveToEnd, Count,
      ClosedAfter, AskedFor, Arrivals;
    var s := Run(start, labels);
    ClosedOneMore(labels, l, true);
    ClosedOneMore(labels, l, false);
    var n := Next(s, l);
    if |n.log| > |s.log| {
      CountAppend(s.log, n.log[|s.log|]);
      assert n.log == s.log + [n.log[|s.log|]];
    }
  }

  // ---- What can always happen ----

  lemma {:induction false} CanGoOn(start: System, labels: seq<Label>, l: Label)
    requires CanRun(start, labels) && Enabled(Run(start, labels), l)
    ensures CanRun(start, labels + [l])
    decreases |labels|
  {
    if labels == [] {
      assert CanRun(start, [l]);
    } else {
      CanGoOn(Next(start, labels[0]), labels[1..], l);
      assert (labels + [l])[1..] == labels[1..] + [l];
      hide Next;
    }
  }

  /** No run is ever stuck for want of a step: callers may arrive and the cache be cleared at any moment, whoever is
      ready may look up, inference may answer anything or raise, whoever is done with it may finish, and whoever waits
      may go on once its event is set. */
  lemma NobodyIsHeldUp(cacheSize: int, labels: seq<Label>, key: CacheKey, value: Prediction, invoked: bool, t: nat)
    requires CanRun(Initial(cacheSize), labels)
    ensures CanRun(Initial(cacheSize), labels + [Arrive(key)]) && CanRun(Initial(cacheSize), labels + [Clear])
    ensures var s := Run(Initial(cacheSize), labels);
      t < |s.callers| ==>
        match s.callers[t]
        case Ready(_) => CanRun(Initial(cacheSize), labels + [DoLookup(t)])
        case Waiting(_, event) => event in s.shared.fired ==> CanRun(Initial(cacheSize), labels + [Resume(t)])
        case Producing(_, _) =>
          && CanRun(Initial(cacheSize), labels + [Finish(t, value, invoked)])
          && CanRun(Initial(cacheSize), labels + [Fail(t)])
        case Closing(_, _, _) => CanRun(Initial(cacheSize), labels + [Close(t)])
        case Returned(_, _) => true
        case Raised(_) => true
  {
    var start, s := Initial(cacheSize), Run(Initial(cacheSize), labels);
    CanGoOn(start, labels, Arrive(key));
    CanGoOn(start, labels, Clear);
    if t < |s.callers| {
      match s.callers[t] {
        case Ready(_) => CanGoOn(start, labels, DoLookup(t));
        case Waiting(_, event) => if event in s.shared.fired { CanGoOn(start, labels, Resume(t)); }
        case Producing(_, _) =>
          CanGoOn(start, labels, Finish(t, value, invoked));
          CanGoOn(start, labels, Fail(t));
        case Closing(_, _, _) => CanGoOn(start, labels, Close(t));
        case Returned(_, _) =>
        case Raised(_) =>
      }
    }
    hide CanRun, Run;
  }

  lemma {:induction false} RunOn(s: System, xs: seq<Label>, ys: seq<Label>)
    requires CanRun(s, xs) && CanRun(Run(s, xs), ys)
    ensures CanRun(s, xs + ys) && Run(s, xs + ys) == Run(Run(s, xs), ys)
    decreases |xs|
  {
    if xs == [] {
      assert [] + ys == ys;
    } else {
      RunOn(Next(s, xs[0]), xs[1..], ys);
      assert (xs + ys)[1..] == xs[1..] + ys;
      hide Next;
    }
  }

  lemma RunFour(s: System, a: Label, b: Label, c: Label, d: Label)
    requires Enabled(s, a) && Enabled(Next(s, a), b) && Enabled(Next(Next(s, a), b), c)
    requires Enabled(Next(Next(Next(s, a), b), c), d)
    ensures CanRun(s, [a, b, c, d]) && Run(s, [a, b, c, d]) == Next(Next(Next(Next(s, a), b), c), d)
  {
    hide Next, Enabled;
    NoSteps(s);
    assert [] + [a] == [a] && [a] + [b] == [a, b] && [a, b] + [c] == [a, b, c] && [a, b, c] + [d] == [a, b, c, d];
    hide CanRun, Run;
    RunOneMore(s, [], a);
    RunOneMore(s, [a], b);
    RunOneMore(s, [a, b], c);
    RunOneMore(s, [a, b, c], d);
  }

  lemma NoSteps(s: System)
    ensures CanRun(s, []) && Run(s, []) == s
  {
  }

  /** One caller produces, one waits. */
  function Overlapping(cacheSize: int, key: CacheKey): System {
    System(NewShared(cacheSize).(inflight := map[key := 0], nextEvent := 1, misses := 1),
           [Producing(key, 0), Waiting(key, 0)], [Started(key)])
  }

  lemma TwoOverlap(cacheSize: int, key: CacheKey)
    ensures var labels := [Arrive(key), Arrive(key), DoLookup(0), DoLookup(1)];
      CanRun(Initial(cacheSize), labels) && Run(Initial(cacheSize), labels) == Overlapping(cacheSize, key)
  {
    var s := Initial(cacheSize);
    var s2 := Next(Next(s, Arrive(key)), Arrive(key));
    assert s2.callers == [Ready(key), Ready(key)];
    var s3 := Next(s2, DoLookup(0));
    assert s3.callers == [Producing(key, 0), Ready(key)];
    assert Next(s3, DoLookup(1)).callers == [Producing(key, 0), Waiting(key, 0)];
    RunFour(s, Arrive(key), Arrive(key), DoLookup(0), DoLookup(1));
    hide CanRun, Run;
  }

  /** The first caller has stored its answer. */
  function Answered(cacheSize: int, key: CacheKey, value: Prediction): System {
    var s := Overlapping(cacheSize, key);
    System(s.shared.(inferences := 1, order := [key], entries := map[key := value]),
           [Closing(key, 0, Some(value)), Waiting(key, 0)], s.log + [Stored(key, value, true, [])])
  }

  lemma FirstAnswers(cacheSize: int, key: CacheKey, value: Prediction)
    ensures Enabled(Overlapping(cacheSize, key), Finish(0, value, true))
    ensures Next(Overlapping(cacheSize, key), Finish(0, value, true)) == Answered(cacheSize, key, value)
  {
    StoredAlone(Overlapping(cacheSize, key).shared, key, value);
    hide StoreSection;
    var callers := Overlapping(cacheSize, key).callers;
    assert callers[0 := Closing(key, 0, Some(value))] == [Closing(key, 0, Some(value)), Waiting(key, 0)];
  }

  /** The first caller has returned and woken the other. */
  function Woken(cacheSize: int, key: CacheKey, value: Prediction): System {
    var s := Answered(cacheSize, key, value);
    System(s.shared.(inflight := map[], fired := {0}), [Returned(key, value), Waiting(key, 0)],
           s.log + [Released(key, true)])
  }

  lemma FirstReturns(cacheSize: int, key: CacheKey, value: Prediction)
    ensures Enabled(Answered(cacheSize, key, value), Close(0))
    ensures Next(Answered(cacheSize, key, value), Close(0)) == Woken(cacheSize, key, value)
  {
    var s := Answered(cacheSize, key, value);
    assert s.callers[0 := Returned(key, value)] == [Returned(key, value), Waiting(key, 0)];
    assert s.shared.inflight - {key} == map[] && s.shared.fired + {0} == {0};
  }

  lemma SecondReturns(cacheSize: int, key: CacheKey, value: Prediction)
    ensures var s := Woken(cacheSize, key, value);
      && Enabled(s, Resume(1)) && Enabled(Next(s, Resume(1)), DoLookup(1))
      && var end := Next(Next(s, Resume(1)), DoLookup(1));
        && end.callers == [Returned(key, value), Returned(key, value)]
        && end.shared.inferences == 1 && end.shared.misses == 1 && end.shared.hits == 1
  {
    var s := Woken(cacheSize, key, value);
    assert s.callers[1 := Ready(key)] == [Returned(key, value), Ready(key)];
    assert Next(s, Resume(1)).callers[1 := Returned(key, value)] == [Returned(key, value), Returned(key, value)];
    hide MoveToEnd;
  }

  lemma BothReturn(cacheSize: int, key: CacheKey, value: Prediction)
    ensures var labels := [Finish(0, value, true), Close(0), Resume(1), DoLookup(1)];
      CanRun(Overlapping(cacheSize, key), labels) && var s := Run(Overlapping(cacheSize, key), labels);
        && s.callers == [Returned(key, value), Returned(key, value)]
        && s.shared.inferences == 1 && s.shared.misses == 1 && s.shared.hits == 1
  {
    hide *;
    FirstAnswers(cacheSize, key, value);
    FirstReturns(cacheSize, key, value);
    SecondReturns(cacheSize, key, value);
    RunFour(Overlapping(cacheSize, key), Finish(0, value, true), Close(0), Resume(1), DoLookup(1));
  }

  /** Two calls for one key that overlap share one inference: the second waits for the first and finds its answer. */
  lemma OverlappingCallsShareOneInference(cacheSize: int, key: CacheKey, value: Prediction)
    ensures var first := [Arrive(key), Arrive(key), DoLookup(0), DoLookup(1)];
      var labels := first + [Finish(0, value, true), Close(0), Resume(1), DoLookup(1)];
      CanRun(Initial(cacheSize), labels) && var s := Run(Initial(cacheSize), labels);
        && s.callers == [Returned(key, value), Returned(key, value)]
        && s.shared.inferences == 1 && s.shared.misses == 1 && s.shared.hits == 1
  {
    hide *;
    TwoOverlap(cacheSize, key);
    BothReturn(cacheSize, key, value);
    RunOn(Initial(cacheSize), [Arrive(key), Arrive(key), DoLookup(0), DoLookup(1)],
          [Finish(0, value, true), Close(0), Resume(1), DoLookup(1)]);
  }

  lemma StoredAlone(s: Shared, key: CacheKey, value: Prediction)
    requires s.size >= 1 && s.order == [] && s.entries == map[]
    ensures var now := StoreSection(s, key, value, true);
      now == s.(inferences := s.inferences + 1, order := [key], entries := map[key := value])
  {
  }
}
