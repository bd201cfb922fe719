/** Collapsing legacy validation versions into eligibility records, conservatively. */
module Migration {
  import opened Common
  import opened Eligibility
  import opened EligibilityRegistry
  import S = StrategyRegistry

  datatype Key = Key(strategy: string, timeframe: string, version: string)

  /** One migration: the legacy listing, the runtime timeframes, the market and the moment it runs. */
  datatype Job = Job(legacy: seq<S.Version>, timeframes: seq<string>, market: string, now: int)

  /** The timeframes a version is expanded to: its own, or all runtime timeframes when unpinned. */
  function Effective(v: S.Version, timeframes: seq<string>): seq<string> {
    if v.timeframe != "" then [v.timeframe] else timeframes
  }

  function InGroup(key: Key, timeframes: seq<string>): S.Version -> bool {
    (v: S.Version) => v.strategy == key.strategy && v.version == key.version
      && key.timeframe in Effective(v, timeframes)
  }

  function GroupFor(job: Job, key: Key): seq<S.Version> {
    Filter(job.legacy, InGroup(key, job.timeframes))
  }

  function IdentityOf(job: Job, key: Key): Identity {
    Identity(job.market, key.strategy, key.timeframe, key.version)
  }

  // ---- Grouping ----

  function At(grouped: map<Key, seq<S.Version>>, key: Key): seq<S.Version> {
    if key in grouped then grouped[key] else []
  }

  /** What a version expanded to these timeframes adds to the list of a key. */
  function Share(v: S.Version, key: Key, timeframes: seq<string>): seq<S.Version> {
    if v.strategy == key.strategy && v.version == key.version && key.timeframe in timeframes then [v] else []
  }

  /** The dictionary of lists, its keys in order of first appearance. */
  method GroupLegacy(job: Job) returns (keys: seq<Key>, grouped: map<Key, seq<S.Version>>)
    requires Distinct(job.timeframes)
    ensures Distinct(keys) && forall key :: key in keys <==> GroupFor(job, key) != []
    ensures forall key :: key in keys ==> key in grouped && grouped[key] == GroupFor(job, key)
  {
    keys, grouped := [], map[];
    for i := 0 to |job.legacy|
      invariant Distinct(keys) && forall key :: key in keys <==> key in grouped
      invariant forall key :: At(grouped, key) == Filter(job.legacy[..i], InGroup(key, job.timeframes))
      invariant forall key :: key in grouped ==> grouped[key] != []
    {
      keys, grouped := AddVersion(keys, grouped, job.legacy[i], Effective(job.legacy[i], job.timeframes));
      assert job.legacy[..i + 1][..i] == job.legacy[..i];
    }
    assert job.legacy[..|job.legacy|] == job.legacy;
  }

  /** The inner loop: append the version to the list of every timeframe it answers for. */
  method AddVersion(keys0: seq<Key>, grouped0: map<Key, seq<S.Version>>, v: S.Version, timeframes: seq<string>)
    returns (keys: seq<Key>, grouped: map<Key, seq<S.Version>>)
    requires Distinct(timeframes) && Distinct(keys0) && forall key :: key in keys0 <==> key in grouped0
    requires forall key :: key in grouped0 ==> grouped0[key] != []
    ensures Distinct(keys) && forall key :: key in keys <==> key in grouped
    ensures forall key :: key in grouped ==> grouped[key] != []
    ensures forall key :: At(grouped, key) == At(grouped0, key) + Share(v, key, timeframes)
  {
    keys, grouped := keys0, grouped0;
    for j := 0 to |timeframes|
      invariant Distinct(keys) && forall key :: key in keys <==> key in grouped
      invariant forall key :: key in grouped ==> grouped[key] != []
      invariant forall key :: At(grouped, key) == At(grouped0, key) + Share(v, key, timeframes[..j])
    {
      var key := Key(v.strategy, timeframes[j], v.version);
      assert timeframes[j] !in timeframes[..j];
      assert timeframes[..j + 1] == timeframes[..j] + [timeframes[j]];
      if key !in grouped {
        keys := keys + [key];
      }
      grouped := grouped[key := At(grouped, key) + [v]];
    }
    assert timeframes[..|timeframes|] == timeframes;
  }

  // ---- One group ----

  function Statuses(group: seq<S.Version>, now: int): set<S.VersionStatus> {
    set v | v in group :: S.StatusAt(v, now)
  }

  function Horizons(group: seq<S.Version>): set<string> {
    set v | v in group :: v.horizon
  }

  function Approvals(group: seq<S.Version>): set<set<Regime>> {
    set v | v in group :: v.approvedRegimes
  }

  /** The intersection of the non-empty approval sets, empty when there is none. */
  function SafeRegimes(group: seq<S.Version>): set<Regime> {
    if group == [] then {}
    else
      var front, last := group[..|group| - 1], group[|group| - 1];
      if last.approvedRegimes == {} then SafeRegimes(front)
      else if NoneApproves(front) then last.approvedRegimes
      else SafeRegimes(front) * last.approvedRegimes
  }

  predicate NoneApproves(group: seq<S.Version>) {
    forall v :: v in group ==> v.approvedRegimes == {}
  }

  predicate Conflicting(group: seq<S.Version>, now: int) {
    || |Statuses(group, now)| > 1
    || |Horizons(group)| > 1
    || |Approvals(group)| > 1
    || (!NoneApproves(group) && SafeRegimes(group) == {})
  }

  predicate AllValidated(group: seq<S.Version>, now: int) {
    Statuses(group, now) == {S.Validated}
  }

  function MigratedStatus(group: seq<S.Version>, now: int): Status {
    if AllValidated(group, now) && (!Conflicting(group, now) || SafeRegimes(group) != {}) then PaperApproved
    else if exists v :: v in group && v.passed then Shadow
    else Unvalidated
  }

  predicate IsOldMigration(r: Record) {
    r.migration.Some? && r.migration.value < 2
  }

  predicate Migratable(job: Job, key: Key) {
    GroupFor(job, key) != [] && key.strategy != "" && key.timeframe != "" && key.version != ""
  }

  function MigratedRecord(job: Job, key: Key): (r: Record)
    requires Migratable(job, key)
    ensures r.identity == IdentityOf(job, key) && !IsOldMigration(r)
    ensures !r.status.LiveApproved? && !r.status.Disabled?
  {
    var group := GroupFor(job, key);
    var source := S.Newest(group).value;
    var safe := SafeRegimes(group);
    RecordData(IdentityOf(job, key), MigratedStatus(group, job.now), source.validatedAt,
               Clamp01(source.minimumModelConfidence), Clamp01(source.minimumStrategyConfidence),
               safe, {}, map k | k in safe :: PerformanceData(Allow, 1.0), source.artifact, source.requiresMl, Some(2))
  }

  lemma {:induction false} SafeMeansCommon(group: seq<S.Version>, k: Regime)
    ensures k in SafeRegimes(group) <==>
      !NoneApproves(group) && forall v :: v in group && v.approvedRegimes != {} ==> k in v.approvedRegimes
  {
    if group != [] {
      var front, last := group[..|group| - 1], group[|group| - 1];
      assert group == front + [last];
      SafeMeansCommon(front, k);
    }
  }

  lemma SingletonSet<T>(s: set<T>, x: T, y: T)
    requires x in s && y in s && |s| <= 1
    ensures x == y
  {
    if x != y {
      assert {x, y} <= s;
      SubsetSize({x, y}, s);
    }
  }

  lemma {:induction false} SubsetSize<T>(a: set<T>, b: set<T>)
    requires a <= b
    ensures |a| <= |b|
  {
    if a != {} {
      var x :| x in a;
      SubsetSize(a - {x}, b - {x});
    }
  }

  lemma SameEverywhere<T>(s: set<T>, x: T)
    requires x in s
    ensures |s| <= 1 <==> s == {x}
  {
    if |s| <= 1 {
      forall y | y in s ensures y == x {
        SingletonSet(s, x, y);
      }
    }
  }

  /** Some compatible label of the regime is in every non-empty legacy approval set. */
  ghost predicate CommonlyApproved(group: seq<S.Version>, regime: Regime) {
    exists k :: Compatible(k, regime) && forall v :: v in group && v.approvedRegimes != {} ==> k in v.approvedRegimes
  }

  /** Exactly when a migrated record lets a known regime through on paper: every legacy version of its group is
      validated and unexpired, one compatible label is approved by all that approve any, and the group approves
      some regime or agrees on its horizon. */
  lemma MigrationIsConservative(job: Job, key: Key, regime: Regime)
    requires Migratable(job, key)
    requires !regime.Unknown?
    ensures var r, group := MigratedRecord(job, key), GroupFor(job, key);
      (r.status.PaperApproved? && !BlocksRegime(r, regime)) <==>
        && (forall v :: v in group ==> v.passed && job.now < v.expiresAt)
        && CommonlyApproved(group, regime)
        && (!NoneApproves(group) || forall v, w :: v in group && w in group ==> v.horizon == w.horizon)
  {
    var group := GroupFor(job, key);
    var r := MigratedRecord(job, key);
    AllValidatedMeans(group, job.now);
    RegimeAllowedMeans(r, SafeRegimes(group), regime);
    CommonLabel(group, regime);
    if NoneApproves(group) && AllValidated(group, job.now) {
      AgreementMeans(group, job.now);
    }
    assert r.status == MigratedStatus(group, job.now);
    hide BlocksRegime, CommonlyApproved, SafeRegimes, AllValidated, NoneApproves, MigratedRecord, Compatible, GroupFor;
  }

  lemma CommonLabel(group: seq<S.Version>, regime: Regime)
    ensures NoneApproves(group) ==> SafeRegimes(group) == {} && CommonlyApproved(group, regime)
    ensures !NoneApproves(group) ==>
      (CommonlyApproved(group, regime) <==> exists k :: Compatible(k, regime) && k in SafeRegimes(group))
  {
    forall k ensures k in SafeRegimes(group) <==>
      !NoneApproves(group) && forall v :: v in group && v.approvedRegimes != {} ==> k in v.approvedRegimes
    {
      SafeMeansCommon(group, k);
    }
    assert Compatible(regime, regime);
  }

  lemma AllValidatedMeans(group: seq<S.Version>, now: int)
    requires group != []
    ensures AllValidated(group, now) <==> forall v :: v in group ==> v.passed && now < v.expiresAt
  {
    assert S.StatusAt(group[0], now) in Statuses(group, now);
    if AllValidated(group, now) {
      forall v | v in group ensures v.passed && now < v.expiresAt {
        assert S.StatusAt(v, now) in Statuses(group, now);
      }
    }
  }

  lemma AgreementMeans(group: seq<S.Version>, now: int)
    requires group != [] && NoneApproves(group) && AllValidated(group, now)
    ensures !Conflicting(group, now) <==> forall v, w :: v in group && w in group ==> v.horizon == w.horizon
  {
    var v0 := group[0];
    assert v0.horizon in Horizons(group);
    SameEverywhere(Horizons(group), v0.horizon);
    assert Approvals(group) == {v0.approvedRegimes};
    if |Horizons(group)| <= 1 {
      forall v, w | v in group && w in group ensures v.horizon == w.horizon {
        assert v.horizon in Horizons(group) && w.horizon in Horizons(group);
      }
    }
    if forall v, w :: v in group && w in group ==> v.horizon == w.horizon {
      assert Horizons(group) == {v0.horizon};
    }
  }

  lemma RegimeAllowedMeans(r: Record, safe: set<Regime>, regime: Regime)
    requires r.allowedRegimes == safe && r.disabledRegimes == {} && !regime.Unknown?
    requires r.performance == map k | k in safe :: PerformanceData(Allow, 1.0)
    ensures BlocksRegime(r, regime) <==> safe != {} && forall k :: Compatible(k, regime) ==> k !in safe
  {
    hide Compatible;
    assert Compatible(regime, regime) by { OwnLabel(regime); }
    if k :| Compatible(k, regime) && k in safe {
      assert Governs(if regime in safe then regime else k, r, regime);
    }
  }

  lemma OwnLabel(regime: Regime)
    ensures Compatible(regime, regime)
  {
  }

  // ---- One group on the fields ----

  /** The version is one of the strategy under that name, pinned to the timeframe or to none of the runtime's. */
  function Belongs(job: Job, key: Key): S.Version -> bool {
    (v: S.Version) =>
      && v.strategy == key.strategy && v.version == key.version
      && (if v.timeframe == "" then key.timeframe in job.timeframes else v.timeframe == key.timeframe)
  }

  lemma GroupIsWhatBelongs(job: Job, key: Key)
    ensures GroupFor(job, key) == Filter(job.legacy, Belongs(job, key))
  {
    SameFilter(job.legacy, InGroup(key, job.timeframes), Belongs(job, key));
  }

  /** The legacy versions agree on standing, horizon and approved regimes. */
  ghost predicate Agree(v: S.Version, w: S.Version, now: int) {
    && v.passed == w.passed && (v.passed ==> (now < v.expiresAt <==> now < w.expiresAt))
    && v.horizon == w.horizon && v.approvedRegimes == w.approvedRegimes
  }

  /** Some version approves regimes, but no regime is approved by all that do. */
  ghost predicate NothingInCommon(group: seq<S.Version>) {
    && (exists v :: v in group && v.approvedRegimes != {})
    && forall k :: !ApprovedByAll(group, k)
  }

  ghost predicate ApprovedByAll(group: seq<S.Version>, k: Regime) {
    forall v :: v in group && v.approvedRegimes != {} ==> k in v.approvedRegimes
  }

  lemma SafeOnFields(group: seq<S.Version>)
    ensures forall k :: k in SafeRegimes(group) <==> !NoneApproves(group) && ApprovedByAll(group, k)
    ensures NothingInCommon(group) <==> !NoneApproves(group) && SafeRegimes(group) == {}
  {
    forall k ensures k in SafeRegimes(group) <==> !NoneApproves(group) && ApprovedByAll(group, k) {
      SafeMeansCommon(group, k);
    }
  }

  /** A migration reports a conflict exactly when two legacy versions disagree, or their approvals share no regime. */
  lemma ConflictsMean(group: seq<S.Version>, now: int)
    requires group != []
    ensures Conflicting(group, now) <==>
      (exists v, w :: v in group && w in group && !Agree(v, w, now)) || NothingInCommon(group)
  {
    SafeOnFields(group);
    AllAlike(group, now);
    hide NothingInCommon, SafeRegimes, NoneApproves;
  }

  lemma AllAlike(group: seq<S.Version>, now: int)
    requires group != []
    ensures |Statuses(group, now)| <= 1 && |Horizons(group)| <= 1 && |Approvals(group)| <= 1 <==>
      forall v, w :: v in group && w in group ==> Agree(v, w, now)
  {
    hide Statuses, Horizons, Approvals;
    StatusesAlike(group, now);
    HorizonsAlike(group);
    ApprovalsAlike(group);
    assert group[0] in group;
    if forall v, w :: v in group && w in group ==> Agree(v, w, now) {
      forall v | v in group ensures Agree(v, group[0], now) {}
    }
  }

  lemma HorizonsAlike(group: seq<S.Version>)
    requires group != []
    ensures |Horizons(group)| <= 1 <==> forall v :: v in group ==> v.horizon == group[0].horizon
  {
    assert forall v :: v in group ==> v.horizon in Horizons(group);
    SameEverywhere(Horizons(group), group[0].horizon);
  }

  lemma ApprovalsAlike(group: seq<S.Version>)
    requires group != []
    ensures |Approvals(group)| <= 1 <==> forall v :: v in group ==> v.approvedRegimes == group[0].approvedRegimes
  {
    assert forall v :: v in group ==> v.approvedRegimes in Approvals(group);
    SameEverywhere(Approvals(group), group[0].approvedRegimes);
  }

  lemma StatusesAlike(group: seq<S.Version>, now: int)
    requires group != []
    ensures |Statuses(group, now)| <= 1 <==> forall v :: v in group ==>
      && v.passed == group[0].passed && (v.passed ==> (now < v.expiresAt <==> now < group[0].expiresAt))
  {
    var first := S.StatusAt(group[0], now);
    assert first in Statuses(group, now);
    SameEverywhere(Statuses(group, now), first);
    assert forall v :: v in group ==> S.StatusAt(v, now) in Statuses(group, now);
    assert |Statuses(group, now)| <= 1 <==> forall v :: v in group ==> S.StatusAt(v, now) == first;
  }

  /** What the status of a migrated record says of its group. */
  ghost predicate Earns(status: Status, group: seq<S.Version>, now: int) {
    var sound := forall v :: v in group ==> v.passed && now < v.expiresAt;
    var agreed := if NoneApproves(group) then forall v, w :: v in group && w in group ==> v.horizon == w.horizon
                  else !NothingInCommon(group);
    match status
    case PaperApproved => sound && agreed
    case Shadow => !(sound && agreed) && exists v :: v in group && v.passed
    case Unvalidated => forall v :: v in group ==> !v.passed
    case _ => false
  }

  lemma StatusIsEarned(group: seq<S.Version>, now: int)
    requires group != []
    ensures Earns(MigratedStatus(group, now), group, now)
  {
    AllValidatedMeans(group, now);
    SafeOnFields(group);
    if NoneApproves(group) && AllValidated(group, now) {
      AgreementMeans(group, now);
    }
    assert group[0] in group;
    hide AllValidated, SafeRegimes, NothingInCommon, Conflicting;
    if !NoneApproves(group) && SafeRegimes(group) == {} {
      NothingCommonConflicts(group, now);
    }
  }

  lemma NothingCommonConflicts(group: seq<S.Version>, now: int)
    requires !NoneApproves(group) && SafeRegimes(group) == {}
    ensures Conflicting(group, now)
  {
  }

  /** A migrated record field by field: its minima, artifact and time come from the first of the newest versions, its
      regimes are those approved by all that approve any, and each of them is allowed in full. */
  ghost predicate Migrated(r: Record, job: Job, key: Key, group: seq<S.Version>) {
    && r.identity == Identity(job.market, key.strategy, key.timeframe, key.version)
    && Earns(r.status, group, job.now)
    && (exists i: nat :: i < |group| && S.IsFirstNewest(group, i) && TakenFrom(r, group[i]))
    && (forall k :: k in r.allowedRegimes <==> !NoneApproves(group) && ApprovedByAll(group, k))
    && r.disabledRegimes == {} && r.performance.Keys == r.allowedRegimes
    && (forall k :: k in r.performance ==> r.performance[k].policy.Allow? && r.performance[k].multiplier == 1.0)
    && r.migration == Some(2)
  }

  predicate TakenFrom(r: Record, v: S.Version) {
    && r.validatedAt == v.validatedAt && r.artifact == v.artifact && r.requiresMl == v.requiresMl
    && Cut(v.minimumModelConfidence, r.minimumModelConfidence)
    && Cut(v.minimumStrategyConfidence, r.minimumStrategyConfidence)
  }

  lemma MigratedParts(job: Job, key: Key)
    requires Migratable(job, key)
    ensures var group, r := GroupFor(job, key), MigratedRecord(job, key);
      && r.identity == Identity(job.market, key.strategy, key.timeframe, key.version)
      && r.status == MigratedStatus(group, job.now) && S.Newest(group).Some? && TakenFrom(r, S.Newest(group).value)
      && r.allowedRegimes == SafeRegimes(group)
    ensures var r := MigratedRecord(job, key);
      && r.disabledRegimes == {} && r.performance.Keys == r.allowedRegimes
      && (forall k :: k in r.performance ==> r.performance[k].policy.Allow? && r.performance[k].multiplier == 1.0)
      && r.migration == Some(2)
  {
    hide SafeRegimes, MigratedStatus, GroupFor, S.Newest;
  }

  lemma MigratedOnFields(job: Job, key: Key)
    requires Migratable(job, key)
    ensures Migrated(MigratedRecord(job, key), job, key, Filter(job.legacy, Belongs(job, key)))
  {
    hide MigratedRecord, TakenFrom;
    GroupIsWhatBelongs(job, key);
    MigratedParts(job, key);
    var group, r := GroupFor(job, key), MigratedRecord(job, key);
    S.NewestIsFirst(group);
    SafeOnFields(group);
    StatusIsEarned(group, job.now);
    hide SafeRegimes, MigratedStatus, Earns, NoneApproves, ApprovedByAll, GroupFor, Belongs, S.Newest, S.IsFirstNewest;
  }

  // ---- The whole migration ----

  predicate Settled(filed: Option<Record>) {
    filed.Some? && !IsOldMigration(filed.value)
  }

  predicate AllMigratable(job: Job, keys: seq<Key>) {
    forall key :: key in keys ==> Migratable(job, key)
  }

  /** A group is decided on one listing and written to the directory later. */
  function WriteAfterCheck(seen: seq<Record>, files: seq<Record>, job: Job, key: Key, slot: nat): seq<Record>
    requires Migratable(job, key)
  {
    if Settled(Get(seen, IdentityOf(job, key))) then files else Put(files, MigratedRecord(job, key), slot)
  }

  /** Nothing in between. */
  function MigrateKey(files: seq<Record>, job: Job, key: Key, slot: nat): seq<Record>
    requires Migratable(job, key)
  {
    WriteAfterCheck(files, files, job, key, slot)
  }

  function MigrateKeys(files: seq<Record>, job: Job, keys: seq<Key>, slot: Key -> nat): seq<Record>
    requires AllMigratable(job, keys)
  {
    if keys == [] then files
    else
      var key := keys[|keys| - 1];
      MigrateKey(MigrateKeys(files, job, keys[..|keys| - 1], slot), job, key, slot(key))
  }

  /** The directory after migrating these groups, each decided on the listing seen for it, while others write. */
  function MigrateAmong(files: seq<Record>, job: Job, keys: seq<Key>, slot: Key -> nat, seen: seq<seq<Record>>,
                        o: Others<Key>): seq<Record>
    requires AllMigratable(job, keys) && |seen| == |keys|
  {
    if keys == [] then files
    else
      var last := |keys| - 1;
      var key := keys[last];
      var before := MigrateAmong(files, job, keys[..last], slot, seen[..last], o);
      WriteAfterCheck(seen[last], FileAll(FileAll(before, o.ahead(key)), o.between(key)), job, key, slot(key))
  }

  /** The groups that get a record. */
  function Written(job: Job, keys: seq<Key>, seen: seq<seq<Record>>): (written: seq<Key>)
    requires |seen| == |keys|
    ensures |written| <= |keys| && forall key :: key in written ==> key in keys
  {
    if keys == [] then []
    else
      var last := |keys| - 1;
      Written(job, keys[..last], seen[..last])
        + if Settled(Get(seen[last], IdentityOf(job, keys[last]))) then [] else [keys[last]]
  }

  /** Every group is decided on the directory as the migration has left it so far. */
  predicate Undisturbed(files: seq<Record>, job: Job, keys: seq<Key>, slot: Key -> nat, seen: seq<seq<Record>>)
    requires AllMigratable(job, keys) && |seen| == |keys|
  {
    keys == [] ||
    var last := |keys| - 1;
    Undisturbed(files, job, keys[..last], slot, seen[..last])
      && seen[last] == MigrateKeys(files, job, keys[..last], slot)
  }

  /** Left alone, a migration is the one of `MigrateKeys`. */
  lemma {:induction false} AloneIsAtomic(files: seq<Record>, job: Job, keys: seq<Key>, slot: Key -> nat,
                                         seen: seq<seq<Record>>, o: Others<Key>)
    requires OnePerIdentity(files) && Distinct(keys) && AllMigratable(job, keys) && |seen| == |keys|
    requires Alone(o) && Undisturbed(files, job, keys, slot, seen)
    ensures MigrateAmong(files, job, keys, slot, seen, o) == MigrateKeys(files, job, keys, slot)
    ensures Written(job, keys, seen) == Filter(keys, NeedsRecord(files, job))
  {
    hide *;
    if keys == [] {
      NothingAmong(files, job, keys, slot, seen, o);
    } else {
      var last := |keys| - 1;
      var front, key := keys[..last], keys[last];
      assert keys == front + [key] && seen == seen[..last] + [seen[last]];
      AloneSoFar(files, job, keys, slot, seen, o);
      AloneIsAtomic(files, job, front, slot, seen[..last], o);
      AloneOneMore(files, job, front, key, slot, seen[..last], seen[last], o);
    }
  }

  lemma NothingAmong(files: seq<Record>, job: Job, keys: seq<Key>, slot: Key -> nat, seen: seq<seq<Record>>,
                     o: Others<Key>)
    requires keys == [] && seen == []
    ensures AllMigratable(job, keys) && MigrateAmong(files, job, keys, slot, seen, o) == files
    ensures MigrateKeys(files, job, keys, slot) == files
    ensures Written(job, keys, seen) == Filter(keys, NeedsRecord(files, job)) == []
  {
  }

  lemma AloneSoFar(files: seq<Record>, job: Job, keys: seq<Key>, slot: Key -> nat, seen: seq<seq<Record>>,
                   o: Others<Key>)
    requires keys != [] && Distinct(keys) && AllMigratable(job, keys) && |seen| == |keys|
    requires Alone(o) && Undisturbed(files, job, keys, slot, seen)
    ensures var last := |keys| - 1;
      && Distinct(keys[..last]) && AllMigratable(job, keys[..last]) && o.ahead(keys[last]) == []
        && o.between(keys[last]) == []
      && Undisturbed(files, job, keys[..last], slot, seen[..last])
      && seen[last] == MigrateKeys(files, job, keys[..last], slot)
  {
    hide Migratable, MigrateKeys;
    FirstOnes(keys, |keys| - 1);
  }

  lemma AloneOneMore(files: seq<Record>, job: Job, keys: seq<Key>, key: Key, slot: Key -> nat, seen: seq<seq<Record>>,
                     next: seq<Record>, o: Others<Key>)
    requires OnePerIdentity(files) && Distinct(keys + [key]) && |seen| == |keys|
    requires AllMigratable(job, keys + [key]) && AllMigratable(job, keys) && o.ahead(key) == [] && o.between(key) == []
    requires next == MigrateKeys(files, job, keys, slot) == MigrateAmong(files, job, keys, slot, seen, o)
    requires Written(job, keys, seen) == Filter(keys, NeedsRecord(files, job))
    ensures MigrateAmong(files, job, keys + [key], slot, seen + [next], o) ==
      MigrateKeys(files, job, keys + [key], slot)
    ensures Written(job, keys + [key], seen + [next]) == Filter(keys + [key], NeedsRecord(files, job))
  {
    hide Settled, Get, Put, MigratedRecord, Migratable, OnePerIdentity, MigrateAmong, Written, MigrateKeys, Distinct,
      FileAll, Filter;
    FilesStep(files, job, keys, key, slot);
    OneMoreGroup(files, job, keys, key, slot, seen, next, o);
    NothingFiled(next);
    FilterOneMore(keys, key, NeedsRecord(files, job));
  }

  lemma FirstOnes(keys: seq<Key>, i: nat)
    requires i <= |keys| && Distinct(keys)
    ensures Distinct(keys[..i]) && forall key :: key in keys[..i] ==> key in keys
  {
  }

  function KeyOf(id: Identity): Key {
    Key(id.strategy, id.timeframe, id.modelVersion)
  }

  lemma GetAfterPut(files: seq<Record>, r: Record, slot: nat, id: Identity)
    requires OnePerIdentity(files)
    ensures Get(Put(files, r, slot), id) == if id == r.identity then Some(r) else Get(files, id)
  {
    PutKeepsOnePerIdentity(files, r, slot);
    if id == r.identity {
      ExactRecordIsFound(Put(files, r, slot), r);
    } else if Get(files, id).Some? {
      ExactRecordIsFound(Put(files, r, slot), Get(files, id).value);
    }
  }

  /** A record that is on file and no migration before the second version wrote. */
  predicate Kept(filed: Option<Record>) {
    filed.Some? && (filed.value.migration.Some? ==> filed.value.migration.value >= 2)
  }

  lemma SettledIsKept()
    ensures forall filed :: Settled(filed) <==> Kept(filed)
  {
  }

  /** What is on file after a migration, identity by identity: whatever was settled stays, every other identity of a
      migrated group holds its conservative record, and nothing else changes. Neither the order of the groups nor
      where new files land matters. */
  lemma {:induction false} MigrationResult(files: seq<Record>, job: Job, keys: seq<Key>, slot: Key -> nat, id: Identity)
    requires OnePerIdentity(files) && Distinct(keys) && AllMigratable(job, keys)
    ensures OnePerIdentity(MigrateKeys(files, job, keys, slot))
    ensures Get(MigrateKeys(files, job, keys, slot), id) ==
      if id.market == job.market && KeyOf(id) in keys && !Kept(Get(files, id))
      then Some(MigratedRecord(job, KeyOf(id))) else Get(files, id)
    decreases |keys|
  {
    SettledIsKept();
    hide Migratable, MigratedRecord, Put, Get, IsOldMigration, Kept;
    if keys != [] {
      var front, key := keys[..|keys| - 1], keys[|keys| - 1];
      assert keys == front + [key] && key !in front;
      MigrationResult(files, job, front, slot, id);
      var before := MigrateKeys(files, job, front, slot);
      MigrationResult(files, job, front, slot, IdentityOf(job, key));
      if !Settled(Get(before, IdentityOf(job, key))) {
        GetAfterPut(before, MigratedRecord(job, key), slot(key), id);
        PutKeepsOnePerIdentity(before, MigratedRecord(job, key), slot(key));
      }
    }
  }

  lemma {:induction false} SettledKeysAreLeftAlone(files: seq<Record>, job: Job, keys: seq<Key>, slot: Key -> nat)
    requires AllMigratable(job, keys)
    requires forall key :: key in keys ==> Settled(Get(files, IdentityOf(job, key)))
    ensures MigrateKeys(files, job, keys, slot) == files
    decreases |keys|
  {
    if keys != [] {
      SettledKeysAreLeftAlone(files, job, keys[..|keys| - 1], slot);
    }
  }

  /** A second migration of the same groups, at any later moment and in any order, changes nothing at all. */
  lemma SecondMigrationIsIdle(files: seq<Record>, job: Job, keys: seq<Key>, slot: Key -> nat,
                              again: Job, keysAgain: seq<Key>, slotAgain: Key -> nat)
    requires OnePerIdentity(files) && Distinct(keys) && AllMigratable(job, keys) && AllMigratable(again, keysAgain)
    requires again.market == job.market && forall key :: key in keysAgain ==> key in keys
    ensures MigrateKeys(MigrateKeys(files, job, keys, slot), again, keysAgain, slotAgain) ==
      MigrateKeys(files, job, keys, slot)
    ensures Filter(keysAgain, NeedsRecord(MigrateKeys(files, job, keys, slot), again)) == []
  {
    var filed := MigrateKeys(files, job, keys, slot);
    forall key | key in keysAgain ensures Settled(Get(filed, IdentityOf(again, key))) {
      MigrationResult(files, job, keys, slot, IdentityOf(again, key));
    }
    SettledKeysAreLeftAlone(filed, again, keysAgain, slotAgain);
    FilterNone(keysAgain, NeedsRecord(filed, again));
  }

  function NeedsRecord(files: seq<Record>, job: Job): Key -> bool {
    (key: Key) => !Settled(Get(files, IdentityOf(job, key)))
  }

  function IsConflict(job: Job): Key -> bool {
    (key: Key) => Conflicting(GroupFor(job, key), job.now)
  }

  datatype Report = Report(created: nat, skipped: nat, conflicts: nat, records: seq<Record>)

  /** Names and versions are never empty on file. */
  predicate WellNamed(job: Job) {
    && (forall v :: v in job.legacy ==> v.strategy != "" && v.version != "")
    && (forall t :: t in job.timeframes ==> t != "")
  }

  lemma GroupsAreMigratable(job: Job, key: Key)
    requires WellNamed(job) && GroupFor(job, key) != []
    ensures Migratable(job, key)
  {
    FilterMembers(job.legacy, InGroup(key, job.timeframes));
    var v := GroupFor(job, key)[0];
    assert v in GroupFor(job, key);
  }

  function RecordsOf(job: Job, keys: seq<Key>): (rs: seq<Record>)
    requires AllMigratable(job, keys)
  {
    if keys == [] then [] else RecordsOf(job, keys[..|keys| - 1]) + [MigratedRecord(job, keys[|keys| - 1])]
  }

  /** What a migration of these groups reports when it writes the second ones. */
  function ReportOf(job: Job, keys: seq<Key>, written: seq<Key>): Report
    requires AllMigratable(job, written) && |written| <= |keys|
  {
    Report(|written|, |keys| - |written|, |Filter(written, IsConflict(job))|, RecordsOf(job, written))
  }

  /** How far a migration has come: each group decided on a listing less than five seconds old, the directory and the
      report following from these listings. */
  ghost predicate Underway(history: seq<Moment>, now: seq<Record>, files: seq<Record>, job: Job, keys: seq<Key>,
                           slot: Key -> nat, seen: seq<seq<Record>>, o: Others<Key>, at: nat -> real, report: Report) {
    && |seen| == |keys| && AllMigratable(job, keys) && AllMigratable(job, Written(job, keys, seen))
    && AllRecent(history, seen, at)
    && now == MigrateAmong(files, job, keys, slot, seen, o)
    && report == ReportOf(job, keys, Written(job, keys, seen))
  }

  /** The migration, each group at its own moment, while other writers file what they like before and after each lookup.
      Every group is decided on a listing less than five seconds old; these listings determine what is written and
      reported. Left alone on a registry that remembers nothing outdated, it does what `MigrateKeys` describes. */
  method Migrate(registry: StrategyEligibilityRegistry, job: Job, slot: Key -> nat, o: Others<Key>, at: nat -> real)
    returns (report: Report, keys: seq<Key>, ghost seen: seq<seq<Record>>)
    requires registry.Valid() && registry.directory.clock <= at(0) && Forward(at)
    requires WellNamed(job) && Distinct(job.timeframes)
    modifies registry, registry.directory
    ensures registry.Valid()
    ensures Distinct(keys) && (forall key :: key in keys <==> GroupFor(job, key) != []) && AllMigratable(job, keys)
    ensures Underway(registry.directory.history, registry.directory.files, old(registry.directory.files), job, keys,
                     slot, seen, o, at, report)
    ensures old(registry.Current()) && Alone(o) ==>
      && registry.Current()
      && registry.directory.files == MigrateKeys(old(registry.directory.files), job, keys, slot)
      && Written(job, keys, seen) == Filter(keys, NeedsRecord(old(registry.directory.files), job))
  {
    var grouped;
    keys, grouped := GroupLegacy(job);
    report, seen := Report(0, 0, 0, []), [];
    ghost var files, current := registry.directory.files, registry.Current();
    forall key | key in keys ensures Migratable(job, key) {
      GroupsAreMigratable(job, key);
    }
    NothingUnderway(registry.directory.history, files, job, keys, slot, o, at);
    DirectoryHasOnePerIdentity(registry);
    hide *;
    for i := 0 to |keys|
      invariant registry.Valid() && registry.directory.clock <= at(i) && |seen| == i
      invariant Underway(registry.directory.history, registry.directory.files, files, job, keys[..i], slot, seen, o, at,
                         report)
      invariant current && Alone(o) ==>
        registry.Current() && AllMigratable(job, keys[..i]) && Undisturbed(files, job, keys[..i], slot, seen)
    {
      ghost var history, before, sofar := registry.directory.history, registry.directory.files, report;
      KeyOfGroup(job, keys, i, o);
      ghost var next;
      report, next := MigrateGroup(registry, job, keys[i], grouped[keys[i]], slot(keys[i]), report, o, at(i));
      UnderwayStep(history, registry.directory.history, before, registry.directory.files, files, job, keys, i, slot,
                   seen, next, o, at, sofar, report);
      if current && Alone(o) {
        AloneStep(files, before, job, keys, i, slot, seen, o);
      }
      seen := seen + [next];
      MovingOn(at, i);
    }
    assert keys[..|keys|] == keys;
    if current && Alone(o) {
      AloneIsAtomic(files, job, keys, slot, seen, o);
      UnderwayMeans(registry.directory.history, registry.directory.files, files, job, keys, slot, seen, o, at, report);
    }
  }

  lemma DirectoryHasOnePerIdentity(registry: StrategyEligibilityRegistry)
    requires registry.Valid()
    ensures OnePerIdentity(registry.directory.files)
  {
  }

  lemma NothingUnderway(history: seq<Moment>, files: seq<Record>, job: Job, keys: seq<Key>, slot: Key -> nat,
                        o: Others<Key>, at: nat -> real)
    ensures Underway(history, files, files, job, keys[..0], slot, [], o, at, Report(0, 0, 0, []))
    ensures AllMigratable(job, keys[..0]) && Undisturbed(files, job, keys[..0], slot, [])
  {
  }

  lemma KeyOfGroup(job: Job, keys: seq<Key>, i: nat, o: Others<Key>)
    requires i < |keys| && AllMigratable(job, keys)
    ensures Migratable(job, keys[i])
    ensures Alone(o) ==> o.ahead(keys[i]) == [] && o.between(keys[i]) == []
  {
    hide Migratable;
  }

  lemma UnderwayMeans(history: seq<Moment>, now: seq<Record>, files: seq<Record>, job: Job, keys: seq<Key>,
                      slot: Key -> nat, seen: seq<seq<Record>>, o: Others<Key>, at: nat -> real, report: Report)
    requires Underway(history, now, files, job, keys, slot, seen, o, at, report)
    ensures now == MigrateAmong(files, job, keys, slot, seen, o)
  {
  }

  lemma AloneStep(files: seq<Record>, before: seq<Record>, job: Job, keys: seq<Key>, i: nat, slot: Key -> nat,
                  seen: seq<seq<Record>>, o: Others<Key>)
    requires i < |keys| && |seen| == i && OnePerIdentity(files) && Distinct(keys) && AllMigratable(job, keys)
    requires AllMigratable(job, keys[..i]) && Alone(o) && Undisturbed(files, job, keys[..i], slot, seen)
    requires before == MigrateAmong(files, job, keys[..i], slot, seen, o)
    ensures AllMigratable(job, keys[..i + 1]) && Undisturbed(files, job, keys[..i + 1], slot, seen + [before])
  {
    hide Migratable, MigrateKeys, MigrateAmong, OnePerIdentity, Alone, Distinct;
    FirstOnes(keys, i);
    AloneIsAtomic(files, job, keys[..i], slot, seen, o);
    assert keys[..i + 1][..i] == keys[..i] && (seen + [before])[..i] == seen;
  }

  lemma UnderwayStep(history: seq<Moment>, later: seq<Moment>, before: seq<Record>, now: seq<Record>,
                     files: seq<Record>, job: Job, keys: seq<Key>, i: nat, slot: Key -> nat, seen: seq<seq<Record>>,
                     next: seq<Record>, o: Others<Key>, at: nat -> real, sofar: Report, report: Report)
    requires i < |keys| && AllMigratable(job, keys) && Migratable(job, keys[i]) && Forward(at)
    requires Underway(history, before, files, job, keys[..i], slot, seen, o, at, sofar)
    requires Grown(history, later, at(i)) && Recent(later, next, at(i))
    requires now == AfterGroup(next, before, job, keys[i], slot(keys[i]), o)
    requires report == GroupReport(next, job, keys[i], sofar)
    ensures Underway(later, now, files, job, keys[..i + 1], slot, seen + [next], o, at, report)
  {
    hide Migratable, Recent, Get, Put, FileAll, MigratedRecord, Conflicting, Settled, Grown, MigrateAmong, Written,
      ReportOf, AfterGroup;
    assert keys[..i + 1] == keys[..i] + [keys[i]];
    StillRecentThen(history, later, seen, next, i, at);
    OneMoreGroup(files, job, keys[..i], keys[i], slot, seen, next, o);
    ReportStep(job, keys[..i], Written(job, keys[..i], seen), keys[i], Settled(Get(next, IdentityOf(job, keys[i]))));
  }

  lemma OneMoreGroup(files: seq<Record>, job: Job, keys: seq<Key>, key: Key, slot: Key -> nat, seen: seq<seq<Record>>,
                     next: seq<Record>, o: Others<Key>)
    requires |seen| == |keys| && AllMigratable(job, keys) && Migratable(job, key)
    ensures AllMigratable(job, keys + [key])
    ensures MigrateAmong(files, job, keys + [key], slot, seen + [next], o) ==
      AfterGroup(next, MigrateAmong(files, job, keys, slot, seen, o), job, key, slot(key), o)
    ensures Written(job, keys + [key], seen + [next]) ==
      Written(job, keys, seen) + if Settled(Get(next, IdentityOf(job, key))) then [] else [key]
  {
    hide Migratable, Get, Put, FileAll, Settled, WriteAfterCheck;
    assert (keys + [key])[..|keys|] == keys && (seen + [next])[..|seen|] == seen;
  }

  lemma ReportStep(job: Job, keys: seq<Key>, written: seq<Key>, key: Key, settled: bool)
    requires AllMigratable(job, written) && |written| <= |keys| && Migratable(job, key)
    ensures var now := written + if settled then [] else [key];
      AllMigratable(job, now) && var before := ReportOf(job, keys, written);
      ReportOf(job, keys + [key], now) ==
        if settled then before.(skipped := before.skipped + 1)
        else Report(before.created + 1, before.skipped,
                    before.conflicts + if Conflicting(GroupFor(job, key), job.now) then 1 else 0,
                    before.records + [MigratedRecord(job, key)])
  {
    hide Migratable, MigratedRecord, Conflicting;
    assert written + [] == written && (written + [key])[..|written|] == written;
  }

  /** The directory after one group, others writing around its lookup. */
  function AfterGroup(seen: seq<Record>, files: seq<Record>, job: Job, key: Key, slot: nat, o: Others<Key>): seq<Record>
    requires Migratable(job, key)
  {
    WriteAfterCheck(seen, FileAll(FileAll(files, o.ahead(key)), o.between(key)), job, key, slot)
  }

  function GroupReport(seen: seq<Record>, job: Job, key: Key, before: Report): Report
    requires Migratable(job, key)
  {
    if Settled(Get(seen, IdentityOf(job, key))) then before.(skipped := before.skipped + 1)
    else Report(before.created + 1, before.skipped,
                before.conflicts + if Conflicting(GroupFor(job, key), job.now) then 1 else 0,
                before.records + [MigratedRecord(job, key)])
  }

  /** One group: left alone when a settled record was seen on file, otherwise counted and filed. What others file
      between the lookup and the write is not looked at again. */
  method MigrateGroup(registry: StrategyEligibilityRegistry, job: Job, key: Key, group: seq<S.Version>, slot: nat,
                      before: Report, o: Others<Key>, now: real) returns (report: Report, ghost seen: seq<Record>)
    requires registry.Valid() && registry.directory.clock <= now
    requires Migratable(job, key) && group == GroupFor(job, key)
    modifies registry, registry.directory
    ensures registry.Valid() && registry.directory.clock == now
    ensures Recent(registry.directory.history, seen, now)
      && Grown(old(registry.directory.history), registry.directory.history, now)
    ensures registry.directory.files == AfterGroup(seen, old(registry.directory.files), job, key, slot, o)
    ensures report == GroupReport(seen, job, key, before)
    ensures old(registry.Current()) && o.ahead(key) == [] && o.between(key) == [] ==>
      registry.Current() && seen == old(registry.directory.files)
  {
    hide Conflicting, MigratedRecord, Get, Settled, Put, GroupFor, Sourced, Recent, WellKept, Migratable, Grown,
      FileAll;
    report := before;
    ghost var start := registry.directory.history;
    NothingFiled(registry.directory.files);
    registry.OthersFile(o.ahead(key), now);
    ghost var looked := registry.directory.history;
    var existing;
    existing, seen := registry.Find(IdentityOf(job, key), now);
    NothingFiled(registry.directory.files);
    registry.OthersFile(o.between(key), now);
    RecentStays(looked, registry.directory.history, seen, now);
    GrownThrough(start, looked, registry.directory.history, now, now);
    if Settled(existing) {
      report := report.(skipped := report.skipped + 1);
    } else {
      if Conflicting(group, job.now) {
        report := report.(conflicts := report.conflicts + 1);
      }
      var r := MigratedRecord(job, key);
      ghost var history := registry.directory.history;
      registry.Register(r, slot, now);
      OneMoreMoment(history, Moment(now, registry.directory.files));
      RecentStays(history, registry.directory.history, seen, now);
      GrownThrough(start, history, registry.directory.history, now, now);
      report := report.(created := report.created + 1, records := report.records + [r]);
    }
  }

  lemma FilesStep(files: seq<Record>, job: Job, keys: seq<Key>, key: Key, slot: Key -> nat)
    requires OnePerIdentity(files) && Distinct(keys + [key]) && AllMigratable(job, keys + [key])
    ensures AllMigratable(job, keys) && Migratable(job, key)
    ensures MigrateKeys(files, job, keys + [key], slot) ==
      MigrateKey(MigrateKeys(files, job, keys, slot), job, key, slot(key))
    ensures Get(MigrateKeys(files, job, keys, slot), IdentityOf(job, key)) == Get(files, IdentityOf(job, key))
  {
    hide Migratable, MigratedRecord, Conflicting, Get, Put, MigrateKey;
    assert (keys + [key])[..|keys|] == keys;
    assert forall k :: k in keys + [key] <==> k in keys || k == key;
    assert forall i :: 0 <= i < |keys| ==> keys[i] == (keys + [key])[i];
    MigrationResult(files, job, keys, slot, IdentityOf(job, key));
  }
}
