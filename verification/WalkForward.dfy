/** Out-of-sample folds, the bucketing of trades into them, and the metrics of one walk-forward report. */
module WalkForward {
  import opened Common
  import opened Drawdown
  import opened Engine
  import opened OosMetrics
  import opened Stats

  datatype Fold = Fold(start: int, end: int)

  function MinFold(testBars: int): int {
    if testBars / 2 >= 5 then testBars / 2 else 5
  }

  function NextEnd(start: int, bars: int, testBars: int): int {
    if start + testBars <= bars then start + testBars else bars
  }

  function FoldsFrom(start: int, bars: int, testBars: int): seq<Fold>
    requires testBars >= 1 || bars <= start
    decreases bars - start
  {
    if start >= bars then []
    else
      var end := NextEnd(start, bars, testBars);
      (if end - start >= MinFold(testBars) then [Fold(start, end)] else []) + FoldsFrom(end, bars, testBars)
  }

  /** Where the evaluated region ends: at the last bar, or before a dropped tail. */
  function Cut(start: int, bars: int, testBars: int): int
    requires testBars >= 1 || bars <= start
    decreases bars - start
  {
    if start >= bars then start
    else
      var end := NextEnd(start, bars, testBars);
      if end - start >= MinFold(testBars) then Cut(end, bars, testBars) else start
  }

  /** The folds from `start` to `end` follow each other without gap or overlap. */
  ghost predicate Tiles(folds: seq<Fold>, start: int, end: int) {
    if folds == [] then start == end
    else folds[0].start == start && start < folds[0].end && Tiles(folds[1..], folds[0].end, end)
  }

  /** The loop, which ends only because a step is at least one bar long. */
  method GenerateTestFolds(bars: int, warmup: int, testBars: int) returns (folds: seq<Fold>)
    requires testBars >= 1 || bars <= warmup
    ensures folds == FoldsFrom(warmup, bars, testBars)
  {
    folds := [];
    var start := warmup;
    hide FoldsFrom;
    while start < bars
      invariant testBars >= 1 || bars <= start
      invariant folds + FoldsFrom(start, bars, testBars) == FoldsFrom(warmup, bars, testBars)
      decreases bars - start
    {
      var end := NextEnd(start, bars, testBars);
      NextFold(folds, start, bars, testBars);
      if end - start >= MinFold(testBars) {
        folds := folds + [Fold(start, end)];
      }
      start := end;
    }
    NoFoldsLeft(start, bars, testBars);
  }

  lemma NoFoldsLeft(start: int, bars: int, testBars: int)
    requires bars <= start
    ensures FoldsFrom(start, bars, testBars) == []
  {
  }

  lemma NextFold(folds: seq<Fold>, start: int, bars: int, testBars: int)
    requires testBars >= 1 && start < bars
    ensures var end := NextEnd(start, bars, testBars);
      folds + FoldsFrom(start, bars, testBars) ==
        folds + (if end - start >= MinFold(testBars) then [Fold(start, end)] else []) + FoldsFrom(end, bars, testBars)
  {
  }

  /** With test windows of five bars or more the folds tile the bars after the warm-up, up to a dropped tail
      shorter than the smallest fold. */
  lemma {:induction false} FoldsTileTheData(warmup: int, bars: int, testBars: int)
    requires testBars >= 5
    ensures Tiles(FoldsFrom(warmup, bars, testBars), warmup, Cut(warmup, bars, testBars))
    ensures warmup < bars ==> warmup <= Cut(warmup, bars, testBars) <= bars
    ensures warmup < bars ==> TooShort(bars - Cut(warmup, bars, testBars), testBars)
    ensures forall i :: 0 <= i < |FoldsFrom(warmup, bars, testBars)| ==>
      var f := FoldsFrom(warmup, bars, testBars)[i]; !TooShort(f.end - f.start, testBars) && f.end - f.start <= testBars
    decreases bars - warmup
  {
    if warmup < bars {
      var end := NextEnd(warmup, bars, testBars);
      FoldsTileTheData(end, bars, testBars);
      var rest := FoldsFrom(end, bars, testBars);
      if end - warmup >= MinFold(testBars) {
        assert ([Fold(warmup, end)] + rest)[1..] == rest;
      } else {
        assert end == bars && rest == [];
      }
    }
  }

  /** A remainder that makes no fold: fewer than five bars, or fewer than half a window. */
  predicate TooShort(bars: int, testBars: int) {
    bars < 5 || 2 * bars + 1 < testBars
  }

  lemma ShorterThanTheSmallest(bars: int, testBars: int)
    requires testBars >= 5
    ensures bars < MinFold(testBars) <==> TooShort(bars, testBars)
  {
  }

  /** Fold by fold: the windows follow one another from the warm-up, each as long as asked for, and the rest is one more
      fold unless it is too short. */
  lemma {:induction false} FoldsAreWindows(warmup: int, bars: int, testBars: int, full: nat, rest: nat)
    requires testBars >= 5 && rest < testBars && bars == warmup + full * testBars + rest
    ensures var folds := FoldsFrom(warmup, bars, testBars);
      && |folds| == full + (if TooShort(rest, testBars) then 0 else 1)
      && (forall i: nat :: i < full ==> folds[i] == Fold(warmup + i * testBars, warmup + i * testBars + testBars))
      && (!TooShort(rest, testBars) ==> folds[full] == Fold(warmup + full * testBars, bars))
    decreases full
  {
    var folds := FoldsFrom(warmup, bars, testBars);
    ShorterThanTheSmallest(testBars, testBars);
    ShorterThanTheSmallest(rest, testBars);
    if full == 0 {
      assert FoldsFrom(bars, bars, testBars) == [];
    } else {
      var end := warmup + testBars;
      OneWindowLess(full, testBars);
      FoldsAreWindows(end, bars, testBars, full - 1, rest);
      var later := FoldsFrom(end, bars, testBars);
      assert folds == [Fold(warmup, end)] + later;
      hide FoldsFrom, TooShort;
      forall i: nat | i < full ensures folds[i] == Fold(warmup + i * testBars, warmup + i * testBars + testBars) {
        if i > 0 {
          OneWindowLess(i, testBars);
          assert folds[i] == later[i - 1];
        }
      }
    }
  }

  lemma OneWindowLess(i: nat, testBars: int)
    requires i > 0
    ensures i * testBars == testBars + (i - 1) * testBars
  {
  }

  /** Windows of one to four bars are all shorter than the smallest fold: nothing is evaluated. */
  lemma {:induction false} TinyWindowsGiveNoFolds(warmup: int, bars: int, testBars: int)
    requires 1 <= testBars <= 4
    ensures FoldsFrom(warmup, bars, testBars) == []
    decreases bars - warmup
  {
    if warmup < bars {
      TinyWindowsGiveNoFolds(NextEnd(warmup, bars, testBars), bars, testBars);
    }
  }

  // ---- Attribution of trades to folds ----

  /** A trade as the attribution sees it: the position its entry date resolves to, and its net result. */
  datatype Entry = Entry(pos: Option<nat>, pnl: real)

  predicate Inside(e: Entry, lo: int, hi: int) {
    e.pos.Some? && lo <= e.pos.value < hi
  }

  /** Results of the trades entered in `[lo, hi)`, in trade order. */
  function Select(entries: seq<Entry>, lo: int, hi: int): seq<real> {
    if entries == [] then []
    else
      var front, last := entries[..|entries| - 1], entries[|entries| - 1];
      Select(front, lo, hi) + (if Inside(last, lo, hi) then [last.pnl] else [])
  }

  function Flatten(buckets: seq<seq<real>>): seq<real> {
    if buckets == [] then [] else buckets[0] + Flatten(buckets[1..])
  }

  ghost predicate Chronological(entries: seq<Entry>) {
    forall i, j :: 0 <= i < j < |entries| && entries[i].pos.Some? && entries[j].pos.Some? ==>
      entries[i].pos.value <= entries[j].pos.value
  }

  /** The inner loop with its `break`: the first fold that contains the position. */
  method FindFold(folds: seq<Fold>, pos: nat) returns (at: Option<nat>)
    ensures at.Some? ==> at.value < |folds| && folds[at.value].start <= pos < folds[at.value].end
    ensures forall i :: 0 <= i < (if at.Some? then at.value else |folds|) ==> !(folds[i].start <= pos < folds[i].end)
  {
    for i := 0 to |folds|
      invariant forall j :: 0 <= j < i ==> !(folds[j].start <= pos < folds[j].end)
    {
      if folds[i].start <= pos < folds[i].end {
        return Some(i);
      }
    }
    return None;
  }

  ghost predicate Disjoint(folds: seq<Fold>) {
    forall i, j :: 0 <= i < j < |folds| ==> folds[i].end <= folds[j].start
  }

  /** One list per fold, filled by walking the trades once. */
  method BucketTrades(entries: seq<Entry>, folds: seq<Fold>) returns (buckets: seq<seq<real>>)
    requires Disjoint(folds)
    ensures |buckets| == |folds|
    ensures forall i :: 0 <= i < |folds| ==> buckets[i] == Select(entries, folds[i].start, folds[i].end)
  {
    buckets := seq(|folds|, i => []);
    var n := 0;
    while n < |entries|
      invariant n <= |entries| && |buckets| == |folds|
      invariant forall i :: 0 <= i < |folds| ==> buckets[i] == Select(entries[..n], folds[i].start, folds[i].end)
    {
      assert entries[..n + 1][..n] == entries[..n];
      if entries[n].pos.Some? {
        var at := FindFold(folds, entries[n].pos.value);
        if at.Some? {
          buckets := buckets[at.value := buckets[at.value] + [entries[n].pnl]];
        }
      }
      n := n + 1;
    }
    assert entries[..n] == entries;
  }

  lemma {:induction false} SelectEmptyBeyond(entries: seq<Entry>, lo: int, hi: int)
    requires forall i :: 0 <= i < |entries| ==> !Inside(entries[i], lo, hi)
    ensures Select(entries, lo, hi) == []
  {
    if entries != [] {
      SelectEmptyBeyond(entries[..|entries| - 1], lo, hi);
    }
  }

  lemma {:induction false} SelectSplitsAsBag(entries: seq<Entry>, lo: int, mid: int, hi: int)
    requires lo <= mid <= hi
    ensures multiset(Select(entries, lo, hi)) == multiset(Select(entries, lo, mid)) + multiset(Select(entries, mid, hi))
  {
    if entries != [] {
      SelectSplitsAsBag(entries[..|entries| - 1], lo, mid, hi);
    }
  }

  lemma {:induction false} SelectSplitsInOrder(entries: seq<Entry>, lo: int, mid: int, hi: int)
    requires lo <= mid <= hi && Chronological(entries)
    ensures Select(entries, lo, hi) == Select(entries, lo, mid) + Select(entries, mid, hi)
  {
    if entries != [] {
      var front, last := entries[..|entries| - 1], entries[|entries| - 1];
      assert Chronological(front) by {
        assert forall i :: 0 <= i < |front| ==> front[i] == entries[i];
      }
      SelectSplitsInOrder(front, lo, mid, hi);
      if Inside(last, lo, mid) {
        forall i | 0 <= i < |front| ensures !Inside(front[i], mid, hi) {
          assert entries[i] == front[i];
        }
        SelectEmptyBeyond(front, mid, hi);
      }
    }
  }

  /** Lists of the folds, each computed as a filter. */
  function Buckets(entries: seq<Entry>, folds: seq<Fold>): (b: seq<seq<real>>)
    ensures |b| == |folds|
  {
    seq(|folds|, i requires 0 <= i < |folds| => Select(entries, folds[i].start, folds[i].end))
  }

  /** Joining the fold lists loses no covered trade and counts none twice; when entries come in bar order
      the joined list is exactly the chronological list of covered results. */
  lemma {:induction false} JoinedFoldsAreOneFilter(entries: seq<Entry>, folds: seq<Fold>, start: int, end: int)
    requires Tiles(folds, start, end)
    ensures start <= end
    ensures multiset(Flatten(Buckets(entries, folds))) == multiset(Select(entries, start, end))
    ensures Chronological(entries) ==> Flatten(Buckets(entries, folds)) == Select(entries, start, end)
    decreases |folds|
  {
    var b := Buckets(entries, folds);
    if folds == [] {
      assert forall i :: 0 <= i < |entries| ==> !Inside(entries[i], start, end);
      SelectEmptyBeyond(entries, start, end);
    } else {
      JoinedFoldsAreOneFilter(entries, folds[1..], folds[0].end, end);
      assert b[1..] == Buckets(entries, folds[1..]);
      SelectSplitsAsBag(entries, start, folds[0].end, end);
      if Chronological(entries) {
        SelectSplitsInOrder(entries, start, folds[0].end, end);
      }
    }
  }

  lemma {:induction false} TilesAreDisjoint(folds: seq<Fold>, start: int, end: int)
    requires Tiles(folds, start, end)
    ensures Disjoint(folds)
    ensures forall i :: 0 <= i < |folds| ==> start <= folds[i].start < folds[i].end <= end
    decreases |folds|
  {
    if folds != [] {
      TilesAreDisjoint(folds[1..], folds[0].end, end);
      assert forall i :: 0 < i < |folds| ==> folds[i] == folds[1..][i - 1];
      assert start <= folds[0].start < folds[0].end <= end by {
        if |folds| > 1 { assert folds[1..][0].start >= folds[0].end; }
      }
    }
  }

  // ---- Where an entry date falls ----

  /** The first bar with this date, as an index lookup resolves it. */
  function EntryPosition(data: seq<Bar>, date: int): (pos: Option<nat>)
    ensures pos.Some? ==> pos.value < |data| && data[pos.value].time == date
    ensures pos.Some? ==> forall i :: 0 <= i < pos.value ==> data[i].time != date
    ensures pos.None? ==> forall i :: 0 <= i < |data| ==> data[i].time != date
  {
    if data == [] then None
    else
      match EntryPosition(data[..|data| - 1], date)
      case Some(i) => Some(i)
      case None => if data[|data| - 1].time == date then Some(|data| - 1) else None
  }

  function EntriesOf(trips: seq<RoundTrip>, data: seq<Bar>): (es: seq<Entry>)
    requires forall i :: 0 <= i < |trips| ==> trips[i].entryAt < |data|
    ensures |es| == |trips|
  {
    seq(|trips|, i requires 0 <= i < |trips| =>
      Entry(EntryPosition(data, data[trips[i].entryAt].time), NetPnl(trips[i])))
  }

  ghost predicate Ordered(data: seq<Bar>) {
    forall i, j :: 0 <= i < j < |data| ==> data[i].time <= data[j].time
  }

  ghost predicate DatesDiffer(data: seq<Bar>) {
    forall i, j :: 0 <= i < j < |data| ==> data[i].time != data[j].time
  }

  /** Every engine entry resolves to the first bar with its date, at or before its own bar; without repeated dates to
      its own bar. Entries are in bar order, so on an ordered index their resolved positions are too. */
  lemma EngineEntriesResolve(trips: seq<RoundTrip>, data: seq<Bar>)
    requires Sequential(trips, |data|)
    ensures forall i :: 0 <= i < |trips| ==> trips[i].entryAt < |data|
    ensures forall i :: 0 <= i < |trips| ==>
      var pos := EntriesOf(trips, data)[i].pos;
      && pos.Some? && pos.value <= trips[i].entryAt && data[pos.value].time == data[trips[i].entryAt].time
      && (forall k :: 0 <= k < pos.value ==> data[k].time != data[trips[i].entryAt].time)
      && (DatesDiffer(data) ==> pos.value == trips[i].entryAt)
    ensures forall i :: 0 <= i < |trips| ==> EntriesOf(trips, data)[i].pnl == NetPnl(trips[i])
    ensures Ordered(data) ==> Chronological(EntriesOf(trips, data))
  {
    EntriesIncrease(trips, |data|);
    var es := EntriesOf(trips, data);
    if Ordered(data) {
      forall i, j | 0 <= i < j < |es| && es[i].pos.Some? && es[j].pos.Some?
        ensures es[i].pos.value <= es[j].pos.value
      {
        assert trips[i].entryAt < trips[j].entryAt;
      }
    }
  }

  /** Net results of the round trips entered at bars in `[lo, hi)`, in order. */
  function EnteredIn(trips: seq<RoundTrip>, lo: int, hi: int): seq<real> {
    if trips == [] then []
    else
      var front, last := trips[..|trips| - 1], trips[|trips| - 1];
      EnteredIn(front, lo, hi) + (if lo <= last.entryAt < hi then [NetPnl(last)] else [])
  }

  lemma {:induction false} SelectIsEnteredIn(trips: seq<RoundTrip>, entries: seq<Entry>, lo: int, hi: int)
    requires |entries| == |trips|
    requires forall i :: 0 <= i < |trips| ==> entries[i] == Entry(Some(trips[i].entryAt), NetPnl(trips[i]))
    ensures Select(entries, lo, hi) == EnteredIn(trips, lo, hi)
  {
    if trips != [] {
      SelectIsEnteredIn(trips[..|trips| - 1], entries[..|entries| - 1], lo, hi);
    }
  }

  // ---- The report of one symbol ----

  /** What a walk-forward run attributes: the fold lists of the engine's trades. */
  ghost function FoldLists<S>(e: Setup<S>, data: seq<Bar>, warmup: int, testBars: int): seq<seq<real>>
    requires data != [] && (testBars >= 1 || |data| <= warmup)
  {
    TradesDoNotOverlap(e, data);
    Buckets(EntriesOf(Final(e, data).trades, data), FoldsFrom(warmup, |data|, testBars))
  }

  /** Whatever the index looks like, the out-of-sample results are those of the trades whose entry date resolves to a
      bar after the warm-up and before the dropped tail: none lost, none counted twice. On an ordered index they come
      in chronological order, and on one without repeated dates they are the trades entered at those very bars. */
  lemma OutOfSampleIsExactlyTheCoveredTrades<S>(e: Setup<S>, data: seq<Bar>, warmup: int, testBars: int)
    requires warmup < |data| && data != [] && testBars >= 5
    ensures var trips, cut := Final(e, data).trades, Cut(warmup, |data|, testBars);
      var joined := Flatten(FoldLists(e, data, warmup, testBars));
      && TooShort(|data| - cut, testBars)
      && Sequential(trips, |data|)
      && multiset(joined) == multiset(Select(EntriesOf(trips, data), warmup, cut))
      && (Ordered(data) ==> joined == Select(EntriesOf(trips, data), warmup, cut))
      && (DatesDiffer(data) ==> multiset(joined) == multiset(EnteredIn(trips, warmup, cut)))
      && (Ordered(data) && DatesDiffer(data) ==> joined == EnteredIn(trips, warmup, cut))
  {
    hide *;
    var trips := Final(e, data).trades;
    var cut := Cut(warmup, |data|, testBars);
    TradesDoNotOverlap(e, data);
    EngineEntriesResolve(trips, data);
    FoldsTileTheData(warmup, |data|, testBars);
    JoinedFoldsAreOneFilter(EntriesOf(trips, data), FoldsFrom(warmup, |data|, testBars), warmup, cut);
    ListsOfFinal(e, data, warmup, testBars);
    if DatesDiffer(data) {
      SelectIsEnteredIn(trips, EntriesOf(trips, data), warmup, cut);
    }
  }

  lemma ListsOfFinal<S>(e: Setup<S>, data: seq<Bar>, warmup: int, testBars: int)
    requires data != [] && testBars >= 5 && Sequential(Final(e, data).trades, |data|)
    ensures FoldLists(e, data, warmup, testBars) ==
      Buckets(EntriesOf(Final(e, data).trades, data), FoldsFrom(warmup, |data|, testBars))
  {
  }

  function Evaluated(lists: seq<seq<real>>): nat {
    if lists == [] then 0 else Evaluated(lists[..|lists| - 1]) + (if lists[|lists| - 1] != [] then 1 else 0)
  }

  function Positive(lists: seq<seq<real>>): (n: nat)
    ensures n <= Evaluated(lists)
  {
    if lists == [] then 0 else Positive(lists[..|lists| - 1]) + (if Sum(lists[|lists| - 1]) > 0.0 then 1 else 0)
  }

  function Consistency(positive: nat, evaluated: nat): real {
    if evaluated >= 2 then positive as real / evaluated as real else 0.0
  }

  /** The verdict's consistency condition means: at least two folds traded and more than half of them gained. */
  lemma ConsistencyMeansMajority(positive: nat, evaluated: nat)
    requires positive <= evaluated
    ensures Consistency(positive, evaluated) > 0.5 <==> (evaluated >= 2 && 2 * positive > evaluated)
  {
    if evaluated >= 2 {
      QuotientOrder(positive as real, evaluated as real, 1.0, 2.0);
    }
  }

  method Attribute(trades: seq<Trade>, data: seq<Bar>, ghost trips: seq<RoundTrip>, ghost name: string)
    returns (entries: seq<Entry>)
    requires AllReport(trades, trips, data, name)
    requires forall i :: 0 <= i < |trips| ==> trips[i].entryAt < |data|
    ensures entries == EntriesOf(trips, data)
  {
    entries := [];
    for i := 0 to |trades|
      invariant |entries| == i && entries == EntriesOf(trips, data)[..i]
    {
      entries := entries + [Entry(EntryPosition(data, trades[i].entryDate), trades[i].pnl)];
    }
  }

  /** Every fold's figures are those of its own results. */
  ghost predicate FoldsDescribed(perFold: seq<Metrics>, lists: seq<seq<real>>, initial: real) {
    |perFold| == |lists| && forall i :: 0 <= i < |lists| ==> MetricsOf(perFold[i], lists[i], initial)
  }

  lemma OneMoreFold(perFold: seq<Metrics>, lists: seq<seq<real>>, i: nat, m: Metrics, initial: real)
    requires i < |lists| && FoldsDescribed(perFold, lists[..i], initial) && MetricsOf(m, lists[i], initial)
    ensures FoldsDescribed(perFold + [m], lists[..i + 1], initial)
  {
    hide MetricsOf;
    assert forall k :: 0 <= k < i ==> lists[..i + 1][k] == lists[..i][k];
  }

  /** Metrics of every fold, the joined list of results, and the share of trading folds that gained. */
  method Summarise(lists: seq<seq<real>>, initial: real)
    returns (all: seq<real>, perFold: seq<Metrics>, consistency: real)
    ensures all == Flatten(lists)
    ensures FoldsDescribed(perFold, lists, initial)
    ensures initial > 0.0 ==> consistency == Consistency(Positive(lists), Evaluated(lists))
  {
    all, perFold := [], [];
    var positive: nat, evaluated: nat := 0, 0;
    assert lists[0..] == lists && lists[..0] == [];
    assert Evaluated([]) == 0 && Positive([]) == 0;
    assert Flatten(lists[|lists|..]) == [] && FoldsDescribed([], lists[..0], initial);
    hide *;
    for i := 0 to |lists|
      invariant all + Flatten(lists[i..]) == Flatten(lists)
      invariant FoldsDescribed(perFold, lists[..i], initial)
      invariant evaluated == Evaluated(lists[..i]) && (initial > 0.0 ==> positive == Positive(lists[..i]))
    {
      FoldStep(lists, i);
      var m := MetricsFromPnls(lists[i], initial);
      ReturnSign(m, lists[i], initial);
      OneMoreFold(perFold, lists, i, m, initial);
      all := all + lists[i];
      if lists[i] != [] {
        evaluated := evaluated + 1;
        if m.returnPct > 0.0 {
          positive := positive + 1;
        }
      }
      perFold := perFold + [m];
    }
    assert lists[..|lists|] == lists;
    consistency := Consistency(positive, evaluated);
  }

  /** What one more fold adds. */
  lemma FoldStep(lists: seq<seq<real>>, i: nat)
    requires i < |lists|
    ensures Flatten(lists[i..]) == lists[i] + Flatten(lists[i + 1..])
    ensures Evaluated(lists[..i + 1]) == Evaluated(lists[..i]) + if lists[i] != [] then 1 else 0
    ensures Positive(lists[..i + 1]) == Positive(lists[..i]) + if lists[i] != [] && Sum(lists[i]) > 0.0 then 1 else 0
  {
    assert lists[..i + 1][..i] == lists[..i];
    assert lists[i..][1..] == lists[i + 1..];
    hide Sum;
  }

  lemma ReturnSign(m: Metrics, pnls: seq<real>, initial: real)
    requires MetricsOf(m, pnls, initial)
    ensures initial > 0.0 && pnls != [] ==> (m.returnPct > 0.0 <==> Sum(pnls) > 0.0)
  {
    if initial > 0.0 && pnls != [] {
      GainSign(m.returnPct, Sum(pnls), initial);
    }
  }

  lemma GainSign(pct: real, sum: real, initial: real)
    requires initial > 0.0 && IsPercent(pct, sum, initial)
    ensures pct > 0.0 <==> sum > 0.0
  {
    SignOfProduct(-pct, initial);
    assert (-pct) * initial == -(pct * initial);
  }

  /** One symbol's walk-forward run. The report describes exactly the attributed results, and every fold's figures
      describe its own. Without a fold nothing is run; otherwise the engine's errors are passed on. */
  method RunWalkForward<S>(data: seq<Bar>, columns: set<string>, strategy: Strategy<S>, name: string, warmup: nat,
                           testBars: int, costs: Costs, initial: real)
    returns (result: Result<(Report, seq<Metrics>), EngineError>)
    requires testBars >= 1 || |data| <= warmup
    ensures FoldsFrom(warmup, |data|, testBars) == [] ==>
      result.Ok? && result.value.0.pnls == [] && result.value.0.foldConsistency == 0.0 && result.value.1 == []
    ensures FoldsFrom(warmup, |data|, testBars) != [] ==>
      && data != [] && result != Err(NoData)
      && (result == Err(MissingColumns) <==> !(COLUMNS <= columns))
      && (result == Err(NoCapital) <==>
            COLUMNS <= columns && initial == 0.0 && Final(Setup(initial, costs, strategy), data).trades == [])
    ensures result.Ok? ==> Describes(result.value.0, initial)
    ensures FoldsFrom(warmup, |data|, testBars) != [] && result.Ok? ==>
      && data != []
      && var (report, perFold) := result.value;
         var lists := FoldLists(Setup(initial, costs, strategy), data, warmup, testBars);
         && report.pnls == Flatten(lists)
         && FoldsDescribed(perFold, lists, initial)
         && (initial > 0.0 ==> report.foldConsistency == Consistency(Positive(lists), Evaluated(lists)))
  {
    var folds := GenerateTestFolds(|data|, warmup, testBars);
    if folds == [] {
      NothingEvaluated(initial);
      return Ok((Report(0, 0.0, 0.0, 0.0, Ratio(0.0), 0.0, 0.0, []), []));
    }
    FoldsAreDisjoint(warmup, |data|, testBars);
    var lists := RunOnce(data, columns, strategy, name, warmup, testBars, costs, initial, folds);
    hide *;
    if lists.Err? {
      return Err(lists.error);
    }
    var report, perFold := ReportOf(lists.value, initial);
    return Ok((report, perFold));
  }

  /** One engine run over the whole series, its trades bucketed by entry. */
  method RunOnce<S>(data: seq<Bar>, columns: set<string>, strategy: Strategy<S>, name: string, warmup: nat,
                    testBars: int, costs: Costs, initial: real, folds: seq<Fold>)
    returns (lists: Result<seq<seq<real>>, EngineError>)
    requires data != [] && (testBars >= 1 || |data| <= warmup)
    requires folds == FoldsFrom(warmup, |data|, testBars) && Disjoint(folds)
    ensures lists != Err(NoData) && (lists == Err(MissingColumns) <==> !(COLUMNS <= columns))
    ensures lists == Err(NoCapital) <==>
      COLUMNS <= columns && initial == 0.0 && Final(Setup(initial, costs, strategy), data).trades == []
    ensures lists.Ok? ==> lists.value == FoldLists(Setup(initial, costs, strategy), data, warmup, testBars)
  {
    ghost var e := Setup(initial, costs, strategy);
    TradesDoNotOverlap(e, data);
    var engine := new BacktestEngine(initial, costs);
    var result := engine.Run(strategy, data, columns, name);
    if result.Err? {
      return Err(result.error);
    }
    var entries := Attribute(result.value.trades, data, Final(e, data).trades, name);
    var buckets := BucketTrades(entries, folds);
    lists := Ok(buckets);
  }

  method ReportOf(lists: seq<seq<real>>, initial: real) returns (report: Report, perFold: seq<Metrics>)
    ensures report.pnls == Flatten(lists)
    ensures Describes(report, initial)
    ensures FoldsDescribed(perFold, lists, initial)
    ensures initial > 0.0 ==> report.foldConsistency == Consistency(Positive(lists), Evaluated(lists))
  {
    var all, consistency;
    all, perFold, consistency := Summarise(lists, initial);
    var m := MetricsFromPnls(all, initial);
    hide IsMean, IsPercent, IsPooledFactor, MaxFallPct, EquityCurve, Sum, Consistency, Flatten;
    report := Report(m.trades, m.returnPct, m.expectancy, m.winRate, m.profitFactor, m.maxDrawdownPct, consistency,
                     all);
  }

  lemma NothingEvaluated(initial: real)
    ensures Describes(Report(0, 0.0, 0.0, 0.0, Ratio(0.0), 0.0, 0.0, []), initial)
  {
    assert Worst([initial], 1, FallPct) == FallPct(initial, initial) == 0.0;
  }

  lemma FoldsAreDisjoint(warmup: int, bars: int, testBars: int)
    requires testBars >= 1 || bars <= warmup
    ensures Disjoint(FoldsFrom(warmup, bars, testBars))
    ensures FoldsFrom(warmup, bars, testBars) != [] ==> warmup < bars
  {
    if testBars >= 5 {
      FoldsTileTheData(warmup, bars, testBars);
      TilesAreDisjoint(FoldsFrom(warmup, bars, testBars), warmup, Cut(warmup, bars, testBars));
    } else if testBars >= 1 {
      TinyWindowsGiveNoFolds(warmup, bars, testBars);
    }
  }
}
