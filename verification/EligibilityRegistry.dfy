/** The registry object: a five-second listing cache over a directory that other registry objects write too. */
module EligibilityRegistry {
  import opened Common
  import opened Eligibility

  /** A state of the directory and the moment it came about. */
  datatype Moment = Moment(since: real, files: seq<Record>)

  const CACHE_SECONDS := 5.0

  /** The state was the directory's at this moment. */
  ghost predicate InForce(history: seq<Moment>, k: nat, at: real) {
    k < |history| && history[k].since <= at && (k + 1 < |history| ==> at <= history[k + 1].since)
  }

  /** The listing was the directory's at some moment less than five seconds before now. */
  ghost predicate Recent(history: seq<Moment>, listing: seq<Record>, now: real) {
    exists k: nat, at: real :: InForce(history, k, at) && now - 5.0 < at <= now && history[k].files == listing
  }

  ghost predicate InTime(history: seq<Moment>) {
    forall j, k :: 0 <= j < k < |history| ==> history[j].since <= history[k].since
  }

  /** A cached listing is the state in force when it was loaded, and good for five seconds from then. */
  ghost predicate Sourced(history: seq<Moment>, clock: real, cached: Option<seq<Record>>, expires: real, from_: nat) {
    cached.Some? ==>
      && InForce(history, from_, expires - CACHE_SECONDS) && history[from_].files == cached.value
      && expires - CACHE_SECONDS <= clock
  }

  /** Whoever writes later, a cached listing keeps its source. */
  lemma LaterWritesKeepSources(history: seq<Moment>, clock: real, cached: Option<seq<Record>>, expires: real,
                               from_: nat, files: seq<Record>, now: real)
    requires Sourced(history, clock, cached, expires, from_) && clock <= now
    ensures Sourced(history + [Moment(now, files)], now, cached, expires, from_)
  {
  }

  lemma SourcedLater(history: seq<Moment>, clock: real, cached: Option<seq<Record>>, expires: real, from_: nat,
                     now: real)
    requires Sourced(history, clock, cached, expires, from_) && clock <= now
    ensures Sourced(history, now, cached, expires, from_)
  {
  }

  /** The directory changed after `at` at the earliest. */
  ghost predicate Grown(before: seq<Moment>, after: seq<Moment>, at: real) {
    before <= after && forall k :: |before| <= k < |after| ==> at <= after[k].since
  }

  /** What was recent then stays recent as of then, however the directory changes later. */
  lemma RecentStays(before: seq<Moment>, after: seq<Moment>, listing: seq<Record>, at: real)
    requires Recent(before, listing, at) && Grown(before, after, at)
    ensures Recent(after, listing, at)
  {
    var k: nat, then_: real :| InForce(before, k, then_) && at - 5.0 < then_ <= at
      && before[k].files == listing;
    assert InForce(after, k, then_);
  }

  lemma GrownThrough(a: seq<Moment>, b: seq<Moment>, c: seq<Moment>, at: real, later: real)
    requires Grown(a, b, at) && Grown(b, c, later) && at <= later
    ensures Grown(a, c, at)
  {
  }

  /** Every identity on file in the one is on file in the other. */
  ghost predicate StillFiled(before: seq<Record>, after: seq<Record>) {
    forall f :: f in before ==> exists g :: g in after && g.identity == f.identity
  }

  /** Nothing deletes a record. */
  ghost predicate NothingLost(history: seq<Moment>) {
    forall k :: 0 <= k < |history| ==> StillFiled(history[k].files, history[|history| - 1].files)
  }

  /** The states of a directory follow one another in time, never hold two records of one identity and lose none. */
  ghost predicate WellKept(history: seq<Moment>) {
    InTime(history) && NothingLost(history) && forall m :: m in history ==> OnePerIdentity(m.files)
  }

  lemma OneMoreWrite(history: seq<Moment>, files: seq<Record>, r: Record, slot: nat, now: real)
    requires WellKept(history) && history != [] && history[|history| - 1].files == files && OnePerIdentity(files)
    requires history[|history| - 1].since <= now
    ensures WellKept(history + [Moment(now, Put(files, r, slot))])
  {
    hide Put, OnePerIdentity, NothingLost;
    PutKeepsOnePerIdentity(files, r, slot);
    PutLosesNothing(history, files, r, slot, now);
  }

  lemma PutLosesNothing(history: seq<Moment>, files: seq<Record>, r: Record, slot: nat, now: real)
    requires NothingLost(history) && history != [] && history[|history| - 1].files == files && OnePerIdentity(files)
    ensures NothingLost(history + [Moment(now, Put(files, r, slot))])
  {
    hide Put, OnePerIdentity, StillFiled;
    var after := Put(files, r, slot);
    PutKeepsOnePerIdentity(files, r, slot);
    StaysFiled(files, after, r);
    forall k | 0 <= k < |history| ensures StillFiled(history[k].files, after) {
      FiledThrough(history[k].files, files, after);
    }
    FiledAtAll(after);
  }

  lemma StaysFiled(files: seq<Record>, after: seq<Record>, r: Record)
    requires r in after && forall f :: f in files && f.identity != r.identity ==> f in after
    ensures StillFiled(files, after)
  {
  }

  lemma FiledThrough(a: seq<Record>, b: seq<Record>, c: seq<Record>)
    requires StillFiled(a, b) && StillFiled(b, c)
    ensures StillFiled(a, c)
  {
    forall f | f in a ensures exists g :: g in c && g.identity == f.identity {
      var h :| h in b && h.identity == f.identity;
    }
  }

  lemma FiledAtAll(files: seq<Record>)
    ensures StillFiled(files, files)
  {
  }

  /** What was on file at any earlier moment still is, under its identity. */
  lemma StillFiledNow(before: seq<Moment>, after: seq<Moment>, listing: seq<Record>, at: real, now: real)
    requires NothingLost(after) && before != [] && after != [] && Grown(before, after, now)
    ensures StillFiled(before[|before| - 1].files, after[|after| - 1].files)
    ensures Recent(after, listing, at) ==> StillFiled(listing, after[|after| - 1].files)
  {
    hide StillFiled;
    assert after[|before| - 1] == before[|before| - 1];
  }

  /** A record another writer files. */
  datatype Filing = Filing(record: Record, slot: nat)

  function FileAll(files: seq<Record>, filings: seq<Filing>): seq<Record> {
    if filings == [] then files
    else
      var last := filings[|filings| - 1];
      Put(FileAll(files, filings[..|filings| - 1]), last.record, last.slot)
  }

  lemma OneMoreFiling(files: seq<Record>, filings: seq<Filing>, i: nat)
    requires i < |filings|
    ensures FileAll(files, filings[..i + 1]) == Put(FileAll(files, filings[..i]), filings[i].record, filings[i].slot)
  {
    assert filings[..i + 1][..i] == filings[..i];
    hide Put;
  }

  class EligibilityDirectory {
    var files: seq<Record>
    var created: bool
    ghost var history: seq<Moment>
    ghost var clock: real  // of the latest operation

    ghost predicate Valid()
      reads this
    {
      && OnePerIdentity(files) && (!created ==> files == [])
      && history != [] && history[|history| - 1].files == files && history[|history| - 1].since <= clock
      && WellKept(history)
    }

    constructor (now: real)
      ensures Valid() && files == [] && !created && history == [Moment(now, [])] && clock == now
    {
      files, created, history, clock := [], false, [Moment(now, [])], now;
    }

    method Write(r: Record, slot: nat, now: real)
      requires Valid() && clock <= now
      modifies this
      ensures Valid() && created && clock == now
      ensures files == Put(old(files), r, slot) && history == old(history) + [Moment(now, files)]
    {
      hide Put, OnePerIdentity, WellKept;
      PutKeepsOnePerIdentity(files, r, slot);
      OneMoreWrite(history, files, r, slot, now);
      files, created := Put(files, r, slot), true;
      history, clock := history + [Moment(now, files)], now;
    }
  }

  class StrategyEligibilityRegistry {
    const directory: EligibilityDirectory
    var cached: Option<seq<Record>>
    var cacheExpires: real
    ghost var source: nat

    ghost predicate Valid()
      reads this, directory
    {
      directory.Valid() && Sourced(directory.history, directory.clock, cached, cacheExpires, source)
    }

    /** Nothing the registry remembers differs from the directory. */
    ghost predicate Current()
      reads this, directory
    {
      cached.Some? ==> cached.value == directory.files
    }

    constructor (directory: EligibilityDirectory)
      requires directory.Valid()
      ensures this.directory == directory && Valid() && Current()
    {
      this.directory, cached, cacheExpires, source := directory, None, 0.0, 0;
    }

    method Register(r: Record, slot: nat, now: real)
      requires Valid() && directory.clock <= now
      modifies this, directory
      ensures Valid() && Current() && cached == None && directory.clock == now
      ensures directory.files == Put(old(directory.files), r, slot)
      ensures directory.history == old(directory.history) + [Moment(now, directory.files)]
    {
      hide Put;
      directory.Write(r, slot, now);
      cached, cacheExpires := None, 0.0;
    }

    /** Another registry object over the same directory files a record: this one stays valid and remembers what it
        did. */
    method OtherRegisters(other: StrategyEligibilityRegistry, r: Record, slot: nat, now: real)
      requires Valid() && other.Valid() && other != this && other.directory == directory && directory.clock <= now
      modifies other, directory
      ensures Valid() && other.Valid()
      ensures directory.files == Put(old(directory.files), r, slot)
      ensures directory.history == old(directory.history) + [Moment(now, directory.files)]
    {
      LaterWritesKeepSources(directory.history, directory.clock, cached, cacheExpires, source,
                             Put(directory.files, r, slot), now);
      hide Put, Sourced;
      other.Register(r, slot, now);
    }

    /** Another writer files a record; this registry remembers what it did. */
    method OtherFiles(f: Filing, now: real)
      requires Valid() && directory.clock <= now
      modifies directory
      ensures Valid() && directory.clock == now
      ensures directory.files == Put(old(directory.files), f.record, f.slot)
      ensures Grown(old(directory.history), directory.history, now)
    {
      hide Put, Sourced, OnePerIdentity, WellKept;
      LaterWritesKeepSources(directory.history, directory.clock, cached, cacheExpires, source,
                             Put(directory.files, f.record, f.slot), now);
      directory.Write(f.record, f.slot, now);
    }

    /** Other writers file these records, one after the other. */
    method OthersFile(filings: seq<Filing>, now: real)
      requires Valid() && directory.clock <= now
      modifies directory
      ensures Valid() && directory.clock == now
      ensures directory.files == FileAll(old(directory.files), filings)
      ensures Grown(old(directory.history), directory.history, now)
      ensures filings == [] && old(Current()) ==> Current()
    {
      ghost var files, history := directory.files, directory.history;
      SourcedLater(history, directory.clock, cached, cacheExpires, source, now);
      directory.clock := now;
      assert FileAll(files, filings[..0]) == files && Grown(history, history, now);
      hide Sourced, OnePerIdentity, WellKept, Put, Grown, FileAll;
      for i := 0 to |filings|
        invariant Valid() && directory.clock == now
        invariant directory.files == FileAll(files, filings[..i])
        invariant Grown(history, directory.history, now)
        invariant i == 0 && old(Current()) ==> Current()
      {
        ghost var before := directory.history;
        OneMoreFiling(files, filings, i);
        OtherFiles(filings[i], now);
        GrownThrough(history, before, directory.history, now, now);
      }
      assert filings[..|filings|] == filings;
    }

    /** Whether answered from the cache or from the directory, the listing was the directory's less than five seconds
        ago; it is the directory's now when the cache is empty or over, or nobody else has written. */
    method LoadAll(now: real) returns (records: seq<Record>)
      requires Valid() && directory.clock <= now
      modifies this, directory`clock
      ensures Valid() && directory.clock == now
      ensures Recent(directory.history, records, now) && OnePerIdentity(records)
      ensures old(cached.None? || now >= cacheExpires) ==> records == directory.files
      ensures old(cached.None? || now >= cacheExpires) && directory.created ==>
        cached == Some(records) && cacheExpires == now + 5.0
      ensures old(cached.Some? && now < cacheExpires) ==>
        records == old(cached).value && cached == old(cached) && cacheExpires == old(cacheExpires)
      ensures old(Current()) ==> Current() && records == directory.files
    {
      directory.clock := now;
      ghost var last := |directory.history| - 1;
      assert InForce(directory.history, last, now);
      if cached.Some? && now < cacheExpires {
        assert InForce(directory.history, source, cacheExpires - CACHE_SECONDS);
        assert directory.history[source] in directory.history;
        return cached.value;
      }
      if !directory.created {
        return [];
      }
      records := directory.files;
      cached, cacheExpires, source := Some(records), now + CACHE_SECONDS, last;
    }

    method Find(id: Identity, now: real) returns (r: Option<Record>, ghost listing: seq<Record>)
      requires Valid() && directory.clock <= now
      modifies this, directory`clock
      ensures Valid() && directory.clock == now
      ensures Recent(directory.history, listing, now) && r == Get(listing, id)
      ensures old(Current()) ==> Current() && listing == directory.files
    {
      var records := LoadAll(now);
      r, listing := Get(records, id), records;
    }

    /** A decision reads the listing once to select a record and, when an exact version is missing, again to see whether
        its grain is on file; both listings were the directory's less than five seconds before they were read. */
    method EvaluateNow(q: Query, paperGate: bool, now: real, later: real)
      returns (d: Decision, ghost first: seq<Record>, ghost second: seq<Record>)
      requires Valid() && directory.clock <= now <= later
      modifies this, directory`clock
      ensures Valid()
      ensures Recent(directory.history, first, now) && OnePerIdentity(first)
      ensures Recent(directory.history, second, later) && OnePerIdentity(second)
      ensures d == Decide(Selected(first, q), MissingVersion(first, second, q), q, paperGate)
      ensures old(Current()) ==> Current() && d == Evaluate(directory.files, q, paperGate)
      ensures q.environment.Live? && d.executionAllowed ==>
        Selected(first, q).Some? && GrantsLive(Selected(first, q).value, q.regime, q.confidence)
    {
      hide Decide, Selected, Latest, Recent, OnePerIdentity, GrantsLive, Evaluate, WellKept, Sourced;
      var records := LoadAll(now);
      first, second := records, records;
      var selected := Selected(records, q);
      var mismatch := false;
      if q.grain.modelVersion != "" && selected.None? {
        var again := LoadAll(later);
        second := again;
        mismatch := Latest(again, q.grain).Some?;
      } else {
        StillRecent(directory.history, directory.clock, later);
        DirectoryIsWellKept(directory);
        second := directory.files;
        SourcedLater(directory.history, directory.clock, cached, cacheExpires, source, later);
        directory.clock := later;
      }
      d := Decide(selected, mismatch, q, paperGate);
      DecideLive(selected, mismatch, q, paperGate);
      assert mismatch == MissingVersion(first, second, q);
      EvaluationOfOne(first, q, paperGate);
    }
  }

  /** An exact version was asked for, is missing in the first listing, and its grain is in the second. */
  predicate MissingVersion(first: seq<Record>, second: seq<Record>, q: Query) {
    q.grain.modelVersion != "" && Selected(first, q).None? && Latest(second, q.grain).Some?
  }

  lemma DirectoryIsWellKept(d: EligibilityDirectory)
    requires d.Valid()
    ensures OnePerIdentity(d.files)
  {
  }

  lemma EvaluationOfOne(listing: seq<Record>, q: Query, paperGate: bool)
    ensures Evaluate(listing, q, paperGate) ==
      Decide(Selected(listing, q), MissingVersion(listing, listing, q), q, paperGate)
  {
    hide Decide, Selected, Latest;
  }

  /** While nothing is written the last state stays in force. */
  lemma StillRecent(history: seq<Moment>, clock: real, now: real)
    requires history != [] && history[|history| - 1].since <= clock <= now
    ensures Recent(history, history[|history| - 1].files, now)
  {
    assert InForce(history, |history| - 1, now);
  }

  lemma DecideLive(selected: Option<Record>, mismatch: bool, q: Query, paperGate: bool)
    requires mismatch ==> selected.None?
    ensures q.environment.Live? && Decide(selected, mismatch, q, paperGate).executionAllowed ==>
      selected.Some? && GrantsLive(selected.value, q.regime, q.confidence)
  {
    hide EvaluateRegime, Clamp01, RegimeAdmits;
    if selected.Some? {
      AdmittedByFields(selected.value, q.regime, q.confidence);
    }
  }

  // ---- Writers among others ----

  /** What other writers file before an item is looked up, and between its lookup and its write. */
  datatype Others<!K> = Others(ahead: K -> seq<Filing>, between: K -> seq<Filing>)

  ghost predicate Alone<K(!new)>(o: Others<K>) {
    forall key :: o.ahead(key) == [] && o.between(key) == []
  }

  ghost predicate AllRecent(history: seq<Moment>, seen: seq<seq<Record>>, at: nat -> real) {
    forall i :: 0 <= i < |seen| ==> Recent(history, seen[i], at(i))
  }

  ghost predicate Forward(at: nat -> real) {
    forall i: nat, j: nat :: i <= j ==> at(i) <= at(j)
  }

  lemma StillRecentThen(history: seq<Moment>, later: seq<Moment>, seen: seq<seq<Record>>, next: seq<Record>, i: nat,
                        at: nat -> real)
    requires |seen| == i && AllRecent(history, seen, at) && Forward(at)
    requires Grown(history, later, at(i)) && Recent(later, next, at(i))
    ensures AllRecent(later, seen + [next], at)
  {
    hide Recent, Grown;
    forall k | 0 <= k < i ensures Recent(later, seen[k], at(k)) {
      GrownSince(history, later, at(i), at(k));
      RecentStays(history, later, seen[k], at(k));
    }
  }

  lemma GrownSince(history: seq<Moment>, later: seq<Moment>, at: real, earlier: real)
    requires Grown(history, later, at) && earlier <= at
    ensures Grown(history, later, earlier)
  {
  }

  lemma NothingFiled(files: seq<Record>)
    ensures FileAll(files, []) == files
  {
  }

  lemma OneMoreMoment(history: seq<Moment>, m: Moment)
    ensures Grown(history, history + [m], m.since)
  {
  }

  lemma MovingOn(at: nat -> real, i: nat)
    requires Forward(at)
    ensures at(i) <= at(i + 1)
  {
  }

  // ---- How soon a change is obeyed ----

  /** A state that was in force at some moment after `t`. */
  ghost predicate InForceAfter(history: seq<Moment>, k: nat, t: real) {
    k < |history| && (k + 1 < |history| ==> t < history[k + 1].since)
  }

  lemma RecentIsAfter(history: seq<Moment>, listing: seq<Record>, now: real, t: real) returns (k: nat)
    requires Recent(history, listing, now) && t + 5.0 <= now
    ensures InForceAfter(history, k, t) && history[k].files == listing
  {
    var j: nat, at: real :| InForce(history, j, at) && now - 5.0 < at <= now && history[j].files == listing;
    k := j;
  }

  /** The record stands in every state after `t`, newest of its grain. */
  ghost predicate StandsSince(history: seq<Moment>, r: Record, t: real) {
    forall k: nat :: InForceAfter(history, k, t) ==>
      OnePerIdentity(history[k].files) && r in history[k].files && Latest(history[k].files, r.identity) == Some(r)
  }

  /** A DISABLED record that stands since `t`, newest of its grain, is obeyed at the latest five seconds later,
      whichever registry object is asked and whatever it has cached: its own version and the grain at large are
      refused. */
  lemma DisabledIsObeyedWithinFiveSeconds(history: seq<Moment>, listing: seq<Record>, now: real, t: real, r: Record,
                                          q: Query, mismatch: bool, paperGate: bool)
    requires Recent(history, listing, now) && t + 5.0 <= now
    requires r.status.Disabled? && StandsSince(history, r, t)
    requires q.grain == r.identity || (q.grain.modelVersion == "" && SameGrain(q.grain)(r))
    ensures Selected(listing, q) == Some(r)
    ensures var d := Decide(Selected(listing, q), mismatch, q, paperGate);
      !d.pipelineAllowed && !d.qwenAllowed && !d.executionAllowed
  {
    var k := RecentIsAfter(history, listing, now, t);
    assert OnePerIdentity(listing) && r in listing && Latest(listing, r.identity) == Some(r);
    if q.grain == r.identity {
      ExactRecordIsFound(listing, r);
    } else {
      SameGrainSameListing(listing, q.grain, r.identity);
    }
    hide Recent, StandsSince, EvaluateRegime, OnePerIdentity, Get;
  }

  lemma SameGrainSameListing(files: seq<Record>, a: Identity, b: Identity)
    requires a.market == b.market && a.strategy == b.strategy && a.timeframe == b.timeframe
    ensures Filter(files, SameGrain(a)) == Filter(files, SameGrain(b))
  {
    FilterAlike(files, SameGrain(a), SameGrain(b));
  }

  lemma {:induction false} FilterAlike(files: seq<Record>, p: Record -> bool, q: Record -> bool)
    requires forall f :: p(f) <==> q(f)
    ensures Filter(files, p) == Filter(files, q)
  {
    if files != [] {
      FilterAlike(files[..|files| - 1], p, q);
    }
  }

  /** A LIVE decision rests on a record that was on file, and LIVE_APPROVED, less than five seconds before. */
  lemma LiveRestsOnRecentApproval(history: seq<Moment>, listing: seq<Record>, now: real, q: Query, mismatch: bool,
                                  paperGate: bool)
    requires Recent(history, listing, now) && q.environment.Live? && (mismatch ==> Selected(listing, q).None?)
    requires Decide(Selected(listing, q), mismatch, q, paperGate).executionAllowed
    ensures exists k: nat, at: real, r: Record :: (InForce(history, k, at) && now - 5.0 < at <= now
                                && r in history[k].files && r.status.LiveApproved? && SameGrain(q.grain)(r)
                                && GrantsLive(r, q.regime, q.confidence))
  {
    DecideLive(Selected(listing, q), mismatch, q, paperGate);
    SelectedIsOfTheGrain(listing, q);
    hide Decide, Selected, InForce;
    var k: nat, at: real :| InForce(history, k, at) && now - 5.0 < at <= now && history[k].files == listing;
    assert Selected(listing, q).value in history[k].files;
  }
}
