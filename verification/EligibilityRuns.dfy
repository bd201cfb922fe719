/** Whole runs of the eligibility registry: registrations, migrations and placeholders in any order. */
module EligibilityRuns {
  import opened Common
  import opened Eligibility
  import opened EligibilityRegistry
  import M = Migration

  // ---- Placeholders ----

  predicate Named(grain: Identity) {
    grain.strategy != "" && grain.timeframe != "" && grain.modelVersion != ""
  }

  /** The SHADOW record that stands in for a configured grain nobody has validated. */
  function Placeholder(grain: Identity, now: int): (r: Record)
    requires Named(grain)
    ensures r.identity == grain && r.status.Shadow? && !M.IsOldMigration(r)
  {
    RecordData(grain, Shadow, now, 0.0, 0.0, {}, {}, map[], None, false, None)
  }

  /** A placeholder lets its strategy be observed in any regime and at any confidence, and traded on paper only with the
      paper gate off; it never opens LIVE. */
  lemma PlaceholderOnlyObserves(grain: Identity, now: int, q: Query, paperGate: bool)
    requires Named(grain)
    ensures var d := Decide(Some(Placeholder(grain, now)), false, q, paperGate);
      && (d.executionAllowed <==> q.environment.Paper? && !paperGate)
      && (d.pipelineAllowed <==> !q.environment.Live? && (q.environment.Paper? ==> !paperGate))
      && d.adjusted == d.original
    ensures var p := Placeholder(grain, now);
      p.validatedAt == now && p.minimumModelConfidence == 0.0 && p.artifact.None? && !p.requiresMl && p.migration.None?
  {
    var p := Placeholder(grain, now);
    RegimeIsDecidedByFields(p, q.regime);
    assert !Governed(p, q.regime) && !Disables(p, q.regime) && Allows(p, q.regime);
    hide Compatible, EvaluateRegime;
  }

  /** A grain is decided on one listing and its placeholder written later. */
  function PlaceAfterCheck(seen: seq<Record>, files: seq<Record>, grain: Identity, now: int, slot: nat): seq<Record>
    requires Named(grain)
  {
    if Latest(seen, grain).Some? then files else Put(files, Placeholder(grain, now), slot)
  }

  predicate AllNamed(grains: seq<Identity>) {
    forall g :: g in grains ==> Named(g)
  }

  /** The directory after one grain, others writing around its lookup. */
  function PlaceOne(seen: seq<Record>, files: seq<Record>, grain: Identity, now: int, slot: nat,
                    o: Others<Identity>): seq<Record>
    requires Named(grain)
  {
    PlaceAfterCheck(seen, FileAll(FileAll(files, o.ahead(grain)), o.between(grain)), grain, now, slot)
  }

  function PlaceAmong(files: seq<Record>, grains: seq<Identity>, now: int, slot: Identity -> nat,
                      seen: seq<seq<Record>>, o: Others<Identity>): seq<Record>
    requires AllNamed(grains) && |seen| == |grains|
  {
    if grains == [] then files
    else
      var last := |grains| - 1;
      PlaceOne(seen[last], PlaceAmong(files, grains[..last], now, slot, seen[..last], o), grains[last], now,
               slot(grains[last]), o)
  }

  /** The grains without a record in the listing seen for them. */
  function Missing(grains: seq<Identity>, seen: seq<seq<Record>>): seq<Identity>
    requires |seen| == |grains|
  {
    if grains == [] then []
    else
      var last := |grains| - 1;
      Missing(grains[..last], seen[..last]) + if Latest(seen[last], grains[last]).Some? then [] else [grains[last]]
  }

  lemma LatestExists(files: seq<Record>, grain: Identity)
    ensures Latest(files, grain).Some? <==> exists f :: f in files && SameGrain(grain)(f)
  {
    FilterMembers(files, SameGrain(grain));
    if f :| f in files && SameGrain(grain)(f) {
      assert f in Filter(files, SameGrain(grain));
    }
  }

  lemma EmptyGrain(files: seq<Record>, grain: Identity)
    requires Latest(files, grain).None?
    ensures forall f :: f in files ==> f.identity != grain && !SameGrain(grain)(f)
  {
    LatestExists(files, grain);
    assert forall f: Record :: f.identity == grain ==> SameGrain(grain)(f);
  }

  /** Files a placeholder for every configured grain for which no record was seen in any version, while other writers
      file what they like before and after each lookup. Every configured grain ends up with a record. Left alone on a
      registry that remembers nothing outdated, nothing on file changes and only SHADOW records of such grains are
      added. */
  method EnsurePlaceholders(registry: StrategyEligibilityRegistry, grains: seq<Identity>, validatedAt: int,
                            slot: Identity -> nat, o: Others<Identity>, at: nat -> real)
    returns (created: seq<Identity>, ghost seen: seq<seq<Record>>)
    requires registry.Valid() && registry.directory.clock <= at(0) && Forward(at) && AllNamed(grains)
    modifies registry, registry.directory
    ensures registry.Valid() && |seen| == |grains| && AllRecent(registry.directory.history, seen, at)
    ensures registry.directory.files == PlaceAmong(old(registry.directory.files), grains, validatedAt, slot, seen, o)
    ensures created == Missing(grains, seen)
    ensures forall g :: g in grains ==> Latest(registry.directory.files, g).Some?
    ensures old(registry.Current()) && Alone(o) ==>
      registry.Current() && Filled(old(registry.directory.files), registry.directory.files, created, grains, grains)
  {
    created, seen := [], [];
    ghost var files, current := registry.directory.files, registry.Current();
    NothingPlaced(registry.directory.history, files, grains, validatedAt, slot, o, at);
    hide *;
    for i := 0 to |grains|
      invariant registry.Valid() && registry.directory.clock <= at(i) && |seen| == i
      invariant PlacedSoFar(registry.directory.history, registry.directory.files, files, grains[..i], validatedAt, slot,
                            seen, created, o, at)
      invariant current && Alone(o) ==>
        registry.Current() && Filled(files, registry.directory.files, created, grains[..i], grains)
    {
      ghost var history, before, sofar := registry.directory.history, registry.directory.files, created;
      NamedAt(grains, i, o);
      M.DirectoryHasOnePerIdentity(registry);
      ghost var next;
      created, next := EnsurePlaceholder(registry, grains[i], validatedAt, slot(grains[i]), created, o, at(i));
      if current && Alone(o) {
        FilledOneMore(files, before, sofar, grains, i, validatedAt, slot(grains[i]), o);
      }
      PlacedStepOn(history, registry.directory.history, before, registry.directory.files, files, grains, i, validatedAt,
                   slot, seen, next, sofar, created, o, at);
      seen := seen + [next];
      MovingOn(at, i);
    }
    assert grains[..|grains|] == grains;
    PlacedMeans(registry.directory.history, registry.directory.files, files, grains, validatedAt, slot, seen, created,
                o, at);
  }

  /** How far it has come: the directory and the list of placeholders following from the listings seen. */
  ghost predicate PlacedSoFar(history: seq<Moment>, now: seq<Record>, files: seq<Record>, grains: seq<Identity>,
                              validatedAt: int, slot: Identity -> nat, seen: seq<seq<Record>>, created: seq<Identity>,
                              o: Others<Identity>, at: nat -> real) {
    && AllNamed(grains) && |seen| == |grains| && AllRecent(history, seen, at)
    && now == PlaceAmong(files, grains, validatedAt, slot, seen, o)
    && created == Missing(grains, seen) && AllFiled(now, grains)
  }

  lemma PlacedStepOn(history: seq<Moment>, later: seq<Moment>, before: seq<Record>, now: seq<Record>,
                     files: seq<Record>, grains: seq<Identity>, i: nat, validatedAt: int, slot: Identity -> nat,
                     seen: seq<seq<Record>>, next: seq<Record>, sofar: seq<Identity>, created: seq<Identity>,
                     o: Others<Identity>, at: nat -> real)
    requires i < |grains| && Named(grains[i]) && AllNamed(grains[..i + 1]) && Forward(at)
    requires PlacedSoFar(history, before, files, grains[..i], validatedAt, slot, seen, sofar, o, at)
    requires Grown(history, later, at(i)) && Recent(later, next, at(i))
    requires now == PlaceOne(next, before, grains[i], validatedAt, slot(grains[i]), o)
    requires StillFiled(before, now) && Latest(now, grains[i]).Some?
    requires created == sofar + if Latest(next, grains[i]).Some? then [] else [grains[i]]
    ensures PlacedSoFar(later, now, files, grains[..i + 1], validatedAt, slot, seen + [next], created, o, at)
  {
    hide AllNamed, AllRecent, PlaceAmong, Missing, AllFiled, Recent, Grown, StillFiled, Latest, PlaceOne, Forward,
      Named;
    StillRecentThen(history, later, seen, next, i, at);
    OneMorePlaced(files, grains, i, validatedAt, slot, seen, next, o);
    OneMoreFiled(before, now, grains, i);
  }

  lemma PlacedMeans(history: seq<Moment>, now: seq<Record>, files: seq<Record>, grains: seq<Identity>, validatedAt: int,
                    slot: Identity -> nat, seen: seq<seq<Record>>, created: seq<Identity>, o: Others<Identity>,
                    at: nat -> real)
    requires AllNamed(grains) && |seen| == |grains|
    requires PlacedSoFar(history, now, files, grains, validatedAt, slot, seen, created, o, at)
    ensures AllRecent(history, seen, at) && now == PlaceAmong(files, grains, validatedAt, slot, seen, o)
    ensures created == Missing(grains, seen) && forall g :: g in grains ==> Latest(now, g).Some?
  {
    hide AllRecent, PlaceAmong, Missing, Latest;
  }

  ghost predicate AllFiled(files: seq<Record>, grains: seq<Identity>) {
    forall g :: g in grains ==> Latest(files, g).Some?
  }

  lemma NamedAt(grains: seq<Identity>, i: nat, o: Others<Identity>)
    requires i < |grains| && AllNamed(grains)
    ensures Named(grains[i]) && AllNamed(grains[..i + 1])
    ensures Alone(o) ==> o.ahead(grains[i]) == [] && o.between(grains[i]) == []
  {
  }

  lemma NothingPlaced(history: seq<Moment>, files: seq<Record>, grains: seq<Identity>, now: int, slot: Identity -> nat,
                      o: Others<Identity>, at: nat -> real)
    ensures PlacedSoFar(history, files, files, grains[..0], now, slot, [], [], o, at)
    ensures Filled(files, files, [], grains[..0], grains)
  {
  }

  lemma OneMorePlaced(files: seq<Record>, grains: seq<Identity>, i: nat, now: int, slot: Identity -> nat,
                      seen: seq<seq<Record>>, next: seq<Record>, o: Others<Identity>)
    requires i < |grains| && |seen| == i && AllNamed(grains[..i]) && AllNamed(grains[..i + 1]) && Named(grains[i])
    ensures PlaceAmong(files, grains[..i + 1], now, slot, seen + [next], o) ==
      PlaceOne(next, PlaceAmong(files, grains[..i], now, slot, seen, o), grains[i], now, slot(grains[i]), o)
    ensures Missing(grains[..i + 1], seen + [next]) ==
      Missing(grains[..i], seen) + if Latest(next, grains[i]).Some? then [] else [grains[i]]
  {
    hide PlaceOne, Latest, Named;
    assert grains[..i + 1][..i] == grains[..i] && (seen + [next])[..i] == seen;
  }

  lemma OneMoreFiled(before: seq<Record>, after: seq<Record>, grains: seq<Identity>, i: nat)
    requires i < |grains| && AllFiled(before, grains[..i]) && StillFiled(before, after)
      && Latest(after, grains[i]).Some?
    ensures AllFiled(after, grains[..i + 1])
  {
    hide Latest, StillFiled;
    assert grains[..i + 1] == grains[..i] + [grains[i]];
    forall g | g in grains[..i + 1] ensures Latest(after, g).Some? {
      if g in grains[..i] {
        GrainStaysFiled(before, after, g);
      }
    }
  }

  lemma GrainStaysFiled(before: seq<Record>, after: seq<Record>, grain: Identity)
    requires StillFiled(before, after) && Latest(before, grain).Some?
    ensures Latest(after, grain).Some?
  {
    LatestExists(before, grain);
    LatestExists(after, grain);
    hide Latest;
    var f :| f in before && SameGrain(grain)(f);
    var g :| g in after && g.identity == f.identity;
    assert SameGrain(grain)(g);
  }

  /** One grain. What others file between the lookup and the write is not looked at again. */
  method EnsurePlaceholder(registry: StrategyEligibilityRegistry, grain: Identity, validatedAt: int, slot: nat,
                           before: seq<Identity>, o: Others<Identity>, now: real)
    returns (created: seq<Identity>, ghost seen: seq<Record>)
    requires registry.Valid() && registry.directory.clock <= now && Named(grain)
    modifies registry, registry.directory
    ensures registry.Valid() && registry.directory.clock == now
    ensures Recent(registry.directory.history, seen, now)
      && Grown(old(registry.directory.history), registry.directory.history, now)
    ensures registry.directory.files == PlaceOne(seen, old(registry.directory.files), grain, validatedAt, slot, o)
    ensures created == before + if Latest(seen, grain).Some? then [] else [grain]
    ensures Latest(registry.directory.files, grain).Some?
      && StillFiled(old(registry.directory.files), registry.directory.files)
    ensures old(registry.Current()) && o.ahead(grain) == [] && o.between(grain) == [] ==>
      registry.Current() && seen == old(registry.directory.files)
  {
    hide Put, Latest, Recent, Sourced, Placeholder, WellKept, Grown, FileAll, StillFiled, NothingLost;
    ghost var start := registry.directory.history;
    NothingFiled(registry.directory.files);
    registry.OthersFile(o.ahead(grain), now);
    ghost var looked := registry.directory.history;
    var records := registry.LoadAll(now);
    seen := records;
    NothingFiled(registry.directory.files);
    registry.OthersFile(o.between(grain), now);
    RecentStays(looked, registry.directory.history, seen, now);
    GrownThrough(start, looked, registry.directory.history, now, now);
    created := before;
    if Latest(records, grain).None? {
      ghost var history, files := registry.directory.history, registry.directory.files;
      DirectoryIsWellKept(registry.directory);
      registry.Register(Placeholder(grain, validatedAt), slot, now);
      OneMoreMoment(history, Moment(now, registry.directory.files));
      RecentStays(history, registry.directory.history, seen, now);
      GrownThrough(start, history, registry.directory.history, now, now);
      FiledIsLatest(files, grain, validatedAt, slot);
      created := created + [grain];
    }
    KeptIsFiled(start, registry.directory, seen, now);
    if Latest(seen, grain).Some? {
      GrainStaysFiled(seen, registry.directory.files, grain);
    }
  }

  lemma FiledIsLatest(files: seq<Record>, grain: Identity, now: int, slot: nat)
    requires Named(grain) && OnePerIdentity(files)
    ensures Latest(Put(files, Placeholder(grain, now), slot), grain).Some?
  {
    var after := Put(files, Placeholder(grain, now), slot);
    PutKeepsOnePerIdentity(files, Placeholder(grain, now), slot);
    LatestExists(after, grain);
    assert SameGrain(grain)(Placeholder(grain, now));
  }

  lemma KeptIsFiled(start: seq<Moment>, d: EligibilityDirectory, seen: seq<Record>, now: real)
    requires d.Valid() && start != [] && Grown(start, d.history, now) && Recent(d.history, seen, now)
    ensures StillFiled(start[|start| - 1].files, d.files) && StillFiled(seen, d.files)
  {
    hide Recent, Grown, StillFiled, NothingLost;
    assert NothingLost(d.history);
    StillFiledNow(start, d.history, seen, now, now);
  }

  /** What has been done for the grains seen so far. */
  ghost predicate Filled(before: seq<Record>, files: seq<Record>, created: seq<Identity>, seen: seq<Identity>,
                         grains: seq<Identity>) {
    && (forall f :: f in before ==> f in files)
    && (forall f :: f in files && f !in before ==>
          f.status.Shadow? && f.identity in created && Latest(before, f.identity).None?)
    && (forall g :: g in seen ==> Latest(files, g).Some?)
    && (forall g :: g in created ==> g in grains && Latest(before, g).None?)
    && (created == [] ==> files == before)
  }

  lemma FilledOneMore(before: seq<Record>, files: seq<Record>, created: seq<Identity>, grains: seq<Identity>, i: nat,
                      validatedAt: int, slot: nat, o: Others<Identity>)
    requires i < |grains| && Filled(before, files, created, grains[..i], grains) && OnePerIdentity(files)
      && Named(grains[i])
    requires o.ahead(grains[i]) == [] && o.between(grains[i]) == []
    ensures Filled(before, PlaceOne(files, files, grains[i], validatedAt, slot, o),
                   created + (if Latest(files, grains[i]).Some? then [] else [grains[i]]), grains[..i + 1], grains)
  {
    hide Put, Latest, OnePerIdentity, Placeholder;
    var grain, seen := grains[i], grains[..i];
    assert grains[..i + 1] == seen + [grain];
    assert created + [] == created;
    if Latest(files, grain).None? {
      AfterPlaceholder(before, files, grain, validatedAt, slot);
      forall g | g in seen + [grain] ensures Latest(Put(files, Placeholder(grain, validatedAt), slot), g).Some? {
        LatestSurvives(files, grain, validatedAt, slot, g);
      }
    }
  }

  lemma LatestSurvives(files: seq<Record>, grain: Identity, now: int, slot: nat, g: Identity)
    requires OnePerIdentity(files) && Named(grain) && Latest(files, grain).None?
    requires Latest(files, g).Some? || g == grain
    ensures Latest(Put(files, Placeholder(grain, now), slot), g).Some?
  {
    PutKeepsOnePerIdentity(files, Placeholder(grain, now), slot);
    LatestExists(files, g);
    EmptyGrain(files, grain);
    LatestExists(Put(files, Placeholder(grain, now), slot), g);
    if g == grain {
      assert SameGrain(grain)(Placeholder(grain, now));
    } else {
      var f :| f in files && SameGrain(g)(f);
      assert f.identity != grain;
    }
  }

  lemma AfterPlaceholder(files: seq<Record>, before: seq<Record>, grain: Identity, now: int, slot: nat)
    requires OnePerIdentity(before) && Named(grain) && Latest(before, grain).None?
    requires forall f :: f in files ==> f in before
    ensures var now_ := Put(before, Placeholder(grain, now), slot);
      && (forall f :: f in before ==> f in now_)
      && (forall f :: f in now_ ==> f in before || f == Placeholder(grain, now))
    ensures Latest(files, grain).None?
  {
    PutKeepsOnePerIdentity(before, Placeholder(grain, now), slot);
    EmptyGrain(before, grain);
    LatestExists(files, grain);
  }


  // ---- Runs ----

  /** One write to the directory. An automated one is decided on what was on file after the first `seen` writes;
      those that came since, it has not seen. */
  datatype Step =
    | Register(record: Record, slot: nat)
    | Migrate(job: M.Job, key: M.Key, seen: nat, slot: nat)
    | AddPlaceholder(grain: Identity, now: int, seen: nat, slot: nat)

  predicate Sound(s: Step) {
    match s
    case Register(_, _) => true
    case Migrate(job, key, _, _) => M.Migratable(job, key)
    case AddPlaceholder(grain, _, _, _) => Named(grain)
  }

  ghost predicate Legal(steps: seq<Step>) {
    forall i :: 0 <= i < |steps| ==> Sound(steps[i]) && (!steps[i].Register? ==> steps[i].seen <= i)
  }

  /** The record a step writes unless what it has seen holds it back. */
  function Offered(s: Step): (r: Record)
    requires Sound(s)
    ensures !s.Register? ==> FromAutomation(r) && !M.IsOldMigration(r)
  {
    match s
    case Register(r, _) => r
    case Migrate(job, key, _, _) => M.MigratedRecord(job, key)
    case AddPlaceholder(grain, now, _, _) => Placeholder(grain, now)
  }

  predicate HeldBack(s: Step, listing: seq<Record>) {
    match s
    case Register(_, _) => false
    case Migrate(job, key, _, _) => M.Settled(Get(listing, M.IdentityOf(job, key)))
    case AddPlaceholder(grain, _, _, _) => Latest(listing, grain).Some?
  }

  function Apply(listing: seq<Record>, files: seq<Record>, s: Step): seq<Record>
    requires Sound(s)
  {
    if HeldBack(s, listing) then files else Put(files, Offered(s), s.slot)
  }

  /** The directory after the steps, from an empty one. */
  ghost function Run(steps: seq<Step>): seq<Record>
    requires Legal(steps)
    decreases |steps|
  {
    if steps == [] then []
    else
      var front, last := steps[..|steps| - 1], steps[|steps| - 1];
      Apply(if last.Register? then Run(front) else Run(steps[..last.seen]), Run(front), last)
  }

  lemma OneMoreStep(steps: seq<Step>, s: Step)
    requires Legal(steps) && Sound(s) && (!s.Register? ==> s.seen <= |steps|)
    ensures Legal(steps + [s])
    ensures Run(steps + [s]) == Apply(if s.Register? then Run(steps) else Run(steps[..s.seen]), Run(steps), s)
  {
    hide Apply, Sound, Legal;
    OneMoreLegal(steps, s);
    assert (steps + [s])[..|steps|] == steps;
    if !s.Register? {
      assert (steps + [s])[..s.seen] == steps[..s.seen];
    }
  }

  lemma OneMoreLegal(steps: seq<Step>, s: Step)
    requires Legal(steps) && Sound(s) && (!s.Register? ==> s.seen <= |steps|)
    ensures Legal(steps + [s]) && forall k :: 0 <= k <= |steps| ==> Legal(steps[..k])
  {
    hide Sound;
  }

  /** What the writes of the methods come to in a run: a group or a grain decided on an earlier state is one such
      step. */
  lemma MigratedStep(steps: seq<Step>, job: M.Job, key: M.Key, seen: nat, slot: nat)
    requires Legal(steps) && M.Migratable(job, key) && seen <= |steps|
    ensures Legal(steps + [Migrate(job, key, seen, slot)])
    ensures Run(steps + [Migrate(job, key, seen, slot)]) ==
      M.WriteAfterCheck(Run(steps[..seen]), Run(steps), job, key, slot)
  {
    hide Run, Legal, Get, Put, M.Migratable, M.MigratedRecord, M.Settled;
    OneMoreStep(steps, Migrate(job, key, seen, slot));
  }

  lemma PlacedStep(steps: seq<Step>, grain: Identity, now: int, seen: nat, slot: nat)
    requires Legal(steps) && Named(grain) && seen <= |steps|
    ensures Legal(steps + [AddPlaceholder(grain, now, seen, slot)])
    ensures Run(steps + [AddPlaceholder(grain, now, seen, slot)]) ==
      PlaceAfterCheck(Run(steps[..seen]), Run(steps), grain, now, slot)
  {
    hide Run, Legal, Latest, Put, Placeholder;
    OneMoreStep(steps, AddPlaceholder(grain, now, seen, slot));
  }

  ghost function Looked(steps: seq<Step>, i: nat): seq<Record>
    requires Legal(steps) && i < |steps|
  {
    if steps[i].Register? then Run(steps[..i]) else Run(steps[..steps[i].seen])
  }

  /** Step `i` writes under this identity. */
  ghost predicate Writes(steps: seq<Step>, i: nat, id: Identity)
    requires Legal(steps)
  {
    i < |steps| && Offered(steps[i]).identity == id && !HeldBack(steps[i], Looked(steps, i))
  }

  lemma AfterStep(steps: seq<Step>, i: nat, id: Identity)
    requires Legal(steps) && i < |steps| && OnePerIdentity(Run(steps[..i]))
    ensures OnePerIdentity(Run(steps[..i + 1]))
    ensures Get(Run(steps[..i + 1]), id) ==
      if Writes(steps, i, id) then Some(Offered(steps[i])) else Get(Run(steps[..i]), id)
  {
    hide Get, Put, HeldBack, Offered, OnePerIdentity, Sound;
    var so := steps[..i + 1];
    assert so[..i] == steps[..i];
    if !steps[i].Register? {
      assert so[..steps[i].seen] == steps[..steps[i].seen];
    }
    var before := Run(steps[..i]);
    assert Run(so) == Apply(Looked(steps, i), before, steps[i]);
    hide Run, Looked;
    M.GetAfterPut(before, Offered(steps[i]), steps[i].slot, id);
    PutKeepsOnePerIdentity(before, Offered(steps[i]), steps[i].slot);
  }

  lemma {:induction false} RunIsWellKept(steps: seq<Step>, k: nat)
    requires Legal(steps) && k <= |steps|
    ensures OnePerIdentity(Run(steps[..k]))
    decreases k
  {
    hide OnePerIdentity, Writes, Get, Run, Legal, Offered;
    LegalSoFar(steps, k);
    if k > 0 {
      RunIsWellKept(steps, k - 1);
      AfterStep(steps, k - 1, Identity("", "", "", ""));
    } else {
      NothingFiledYet(steps);
    }
  }

  lemma NothingFiledYet(steps: seq<Step>)
    ensures Legal(steps[..0]) && Run(steps[..0]) == [] && OnePerIdentity(Run(steps[..0]))
  {
  }

  lemma LegalSoFar(steps: seq<Step>, k: nat)
    requires Legal(steps) && k <= |steps|
    ensures Legal(steps[..k])
  {
    hide Sound;
  }

  /** Nothing on file is ever deleted. */
  lemma {:induction false} FiledForGood(steps: seq<Step>, j: nat, k: nat, id: Identity)
    requires Legal(steps) && j <= k <= |steps| && Get(Run(steps[..j]), id).Some?
    ensures Get(Run(steps[..k]), id).Some?
    decreases k
  {
    hide Run, Get, Writes, OnePerIdentity;
    if j < k {
      FiledForGood(steps, j, k - 1, id);
      RunIsWellKept(steps, k - 1);
      AfterStep(steps, k - 1, id);
    }
  }

  // ---- What becomes of a registered record ----

  /** The record registered last under an identity. */
  function LastRegistered(steps: seq<Step>, id: Identity): Option<Record> {
    if steps == [] then None
    else
      var s := steps[|steps| - 1];
      if s.Register? && s.record.identity == id then Some(s.record) else LastRegistered(steps[..|steps| - 1], id)
  }

  /** What automation may have on file: it approves for paper at most and disables nothing. */
  predicate FromAutomation(r: Record) {
    r.status.PaperApproved? || r.status.Shadow? || r.status.Unvalidated?
  }

  ghost predicate Accounted(filed: Option<Record>, registered: Option<Record>) {
    && (filed.Some? && filed != registered ==> FromAutomation(filed.value))
    && (registered.Some? ==> filed.Some?)
  }

  /** Whatever was seen or missed, a record on file that automation could not have written is the one registered
      last. */
  lemma {:induction false} FilesAreAccountedFor(steps: seq<Step>, id: Identity)
    requires Legal(steps)
    ensures OnePerIdentity(Run(steps)) && Accounted(Get(Run(steps), id), LastRegistered(steps, id))
    decreases |steps|
  {
    if steps != [] {
      var last := |steps| - 1;
      FilesAreAccountedFor(steps[..last], id);
      AfterStep(steps, last, id);
      assert steps[..last + 1] == steps;
      hide Get, Run, OnePerIdentity, HeldBack, Looked;
    }
  }

  /** Step `j` registers a record under this identity, not one an old migration wrote, and no later step registers
      another. */
  ghost predicate Registration(steps: seq<Step>, j: nat, id: Identity) {
    && j < |steps| && steps[j].Register? && steps[j].record.identity == id && M.Settled(Some(steps[j].record))
    && forall i :: j < i < |steps| && steps[i].Register? ==> steps[i].record.identity != id
  }

  /** Automation decided step `i` before step `j` was filed, and saw nothing then that holds it back. */
  ghost predicate OutOfDate(steps: seq<Step>, j: nat, i: nat, id: Identity)
    requires Legal(steps)
  {
    && j < i < |steps| && !steps[i].Register? && steps[i].seen <= j
    && Offered(steps[i]).identity == id && !HeldBack(steps[i], Run(steps[..steps[i].seen]))
  }

  lemma {:induction false} SettledSince(steps: seq<Step>, j: nat, k: nat, id: Identity)
    requires Legal(steps) && Registration(steps, j, id) && j < k <= |steps|
    ensures M.Settled(Get(Run(steps[..k]), id))
    decreases k
  {
    hide Get, Run, Writes, M.Settled, Offered, OnePerIdentity, Legal;
    RunIsWellKept(steps, k - 1);
    AfterStep(steps, k - 1, id);
    if k - 1 > j {
      SettledSince(steps, j, k - 1, id);
      WritesSettle(steps, j, k - 1, id);
    } else {
      RegistersAlways(steps, j);
    }
  }

  lemma WritesSettle(steps: seq<Step>, j: nat, i: nat, id: Identity)
    requires Legal(steps) && Registration(steps, j, id) && j < i < |steps|
    ensures Writes(steps, i, id) ==> M.Settled(Some(Offered(steps[i])))
  {
    hide HeldBack, Looked;
  }

  /** After a registration, automation writes under its identity only what it decided before. */
  lemma OnlyOutOfDateWrites(steps: seq<Step>, j: nat, i: nat, id: Identity)
    requires Legal(steps) && Registration(steps, j, id) && j < i < |steps|
    ensures Writes(steps, i, id) <==> OutOfDate(steps, j, i, id)
  {
    hide Run, HeldBack, Get, M.Settled;
    if !steps[i].Register? && steps[i].seen > j && Offered(steps[i]).identity == id {
      SettledSince(steps, j, steps[i].seen, id);
      SettledHoldsBack(steps[i], Run(steps[..steps[i].seen]), id);
    }
  }

  lemma SettledHoldsBack(s: Step, listing: seq<Record>, id: Identity)
    requires Sound(s) && !s.Register? && Offered(s).identity == id && M.Settled(Get(listing, id))
    ensures HeldBack(s, listing)
  {
    PlaceholderNeedsEmptyGrain(listing, id);
    hide Get, Latest;
  }

  /** The write that counts: the registration, or an out-of-date one. */
  lemma {:induction false} FiledSince(steps: seq<Step>, j: nat, k: nat, id: Identity) returns (i: nat)
    requires Legal(steps) && Registration(steps, j, id) && j < k <= |steps|
    ensures i < |steps| && (i == j || OutOfDate(steps, j, i, id)) && Get(Run(steps[..k]), id) == Some(Offered(steps[i]))
    ensures i == j ==> forall m: nat :: j < m < k ==> !OutOfDate(steps, j, m, id)
    decreases k
  {
    hide Get, Run, HeldBack, OutOfDate, Writes, OnePerIdentity, M.Settled;
    RunIsWellKept(steps, k - 1);
    AfterStep(steps, k - 1, id);
    RegistersAlways(steps, j);
    i := k - 1;
    if k - 1 > j {
      OnlyOutOfDateWrites(steps, j, k - 1, id);
      if !OutOfDate(steps, j, k - 1, id) {
        i := FiledSince(steps, j, k - 1, id);
      }
    }
  }

  lemma RegistersAlways(steps: seq<Step>, j: nat)
    requires Legal(steps) && j < |steps| && steps[j].Register?
    ensures Writes(steps, j, steps[j].record.identity) && Offered(steps[j]) == steps[j].record
  {
  }

  /** Some write after the registration was decided before it. */
  ghost predicate Undercut(steps: seq<Step>, j: nat, id: Identity)
    requires Legal(steps)
  {
    exists i: nat :: OutOfDate(steps, j, i, id)
  }

  /** Such a write is what is on file. */
  ghost predicate Overwritten(steps: seq<Step>, j: nat, id: Identity)
    requires Legal(steps)
  {
    exists i: nat :: OutOfDate(steps, j, i, id) && Get(Run(steps), id) == Some(Offered(steps[i]))
      && FromAutomation(Offered(steps[i]))
  }

  /** A registered record stands until it is registered anew, unless automation that had looked before it was filed,
      and saw nothing that holds it back, writes after it: then such an automated record is on file, which approves
      for paper at most and disables nothing, in place even of a DISABLED one. When automation offers other records
      than the registered one, this is exact. */
  lemma OperatorsAreRespectedIff(steps: seq<Step>, j: nat, id: Identity)
    requires Legal(steps) && Registration(steps, j, id)
    ensures !Undercut(steps, j, id) ==> Get(Run(steps), id) == Some(steps[j].record)
    ensures Undercut(steps, j, id) ==> Overwritten(steps, j, id)
    ensures (forall i :: j < i < |steps| ==> Offered(steps[i]) != steps[j].record) ==>
      (Get(Run(steps), id) == Some(steps[j].record) <==> !Undercut(steps, j, id))
  {
    hide Get, Run, HeldBack;
    var i := FiledSince(steps, j, |steps|, id);
    assert steps[..|steps|] == steps;
    RegistersAlways(steps, j);
  }

  lemma PlaceholderNeedsEmptyGrain(files: seq<Record>, grain: Identity)
    ensures Get(files, grain).Some? ==> Latest(files, grain).Some?
  {
    LatestExists(files, grain);
    if Get(files, grain).Some? {
      assert SameGrain(grain)(Get(files, grain).value);
    }
  }

  // ---- Live safety ----

  /** Live safety: whatever the history of registrations, migrations and placeholders, and however their lookups and
      writes interleave, LIVE execution is allowed only on a record registered LIVE_APPROVED and not replaced since,
      with the regime not blocked and the adjusted confidence at its minimum; and it does not depend on the paper
      gate. */
  lemma LiveSafety(steps: seq<Step>, q: Query, paperGate: bool)
    requires Legal(steps) && q.environment.Live?
    ensures var d := Evaluate(Run(steps), q, paperGate);
      d.executionAllowed ==>
        && d.record.Some? && d.record.value.status.LiveApproved?
        && SameGrain(q.grain)(d.record.value)
        && LastRegistered(steps, d.record.value.identity) == d.record
        && GrantsLive(d.record.value, q.regime, q.confidence)
    ensures Evaluate(Run(steps), q, true) == Evaluate(Run(steps), q, false)
  {
    var files := Run(steps);
    LiveExecutionIff(files, q, paperGate);
    SelectedIsOfTheGrain(files, q);
    assert Evaluate(files, q, paperGate).record == Selected(files, q);
    if Evaluate(files, q, paperGate).executionAllowed {
      var r := Selected(files, q).value;
      FilesAreAccountedFor(steps, r.identity);
      ExactRecordIsFound(files, r);
    }
    hide *;
  }

  /** What safety does not say: a migration that files a new version behind a DISABLED record lets an older
      LIVE_APPROVED one trade again, no operator acting, exactly when the migrated record overtakes the DISABLED one. */
  lemma MigrationUncoversChampionIff(steps: seq<Step>, job: M.Job, key: M.Key, seen: nat, slot: nat, grain: Identity)
    requires Legal(steps) && M.Migratable(job, key) && seen <= |steps|
    requires Get(Run(steps), M.IdentityOf(job, key)).None? && SameGrain(grain)(M.MigratedRecord(job, key))
    requires exists a :: a in Run(steps) && SameGrain(grain)(a) && a.status.LiveApproved?
    ensures Legal(steps + [Migrate(job, key, seen, slot)]) && Latest(Run(steps), grain).Some?
    ensures var uncovers := Latest(Run(steps), grain).value.status.Disabled?
        && Overtakes(Run(steps), M.MigratedRecord(job, key), slot, grain);
      SelectFor(Run(steps + [Migrate(job, key, seen, slot)]), grain, Live) == SelectFor(Run(steps), grain, Live) <==>
        !uncovers
  {
    hide *;
    var r, step := M.MigratedRecord(job, key), Migrate(job, key, seen, slot);
    var before := Run(steps);
    MigratedIsNew(steps, job, key, seen, slot);
    ChallengerIsNoChampion(job, key, before, grain);
    ChallengerUncoversChampionIff(before, r, slot, grain, Live);
  }

  lemma MigratedIsNew(steps: seq<Step>, job: M.Job, key: M.Key, seen: nat, slot: nat)
    requires Legal(steps) && M.Migratable(job, key) && seen <= |steps|
    requires Get(Run(steps), M.IdentityOf(job, key)).None?
    ensures Legal(steps + [Migrate(job, key, seen, slot)])
    ensures Run(steps + [Migrate(job, key, seen, slot)]) == Put(Run(steps), M.MigratedRecord(job, key), slot)
    ensures IndexOf(Run(steps), M.IdentityOf(job, key)).None?
  {
    hide Run, Get, Put, M.Migratable, M.MigratedRecord, OnePerIdentity, IndexOf;
    var id, step := M.IdentityOf(job, key), Migrate(job, key, seen, slot);
    assert steps[..|steps|] == steps;
    if Get(Run(steps[..seen]), id).Some? {
      FiledForGood(steps, seen, |steps|, id);
      assert false;
    }
    MigratedStep(steps, job, key, seen, slot);
    IndexIsFiled(Run(steps), id);
  }

  lemma IndexIsFiled(files: seq<Record>, id: Identity)
    ensures IndexOf(files, id).Some? ==> exists f :: f in files && f.identity == id
  {
    hide IndexOf;
    if IndexOf(files, id).Some? {
      assert files[IndexOf(files, id).value] in files;
    }
  }

  lemma ChallengerIsNoChampion(job: M.Job, key: M.Key, files: seq<Record>, grain: Identity)
    requires M.Migratable(job, key)
    requires exists a :: a in files && SameGrain(grain)(a) && a.status.LiveApproved?
    ensures !M.MigratedRecord(job, key).status.Disabled? && !ApprovedFor(Live)(M.MigratedRecord(job, key))
    ensures M.MigratedRecord(job, key).identity == M.IdentityOf(job, key)
    ensures exists a :: a in files && SameGrain(grain)(a) && ApprovedFor(Live)(a)
  {
    hide M.MigratedRecord, M.Migratable;
    var a :| a in files && SameGrain(grain)(a) && a.status.LiveApproved?;
    assert ApprovedFor(Live)(a);
  }
}
