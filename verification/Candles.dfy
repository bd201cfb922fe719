/** The candle store: one row per market, provider, symbol, timeframe and time, overwritten by later writes. */
module Candles {
  import opened Common

  datatype Series = Series(market: string, provider: string, symbol: string, timeframe: string)

  datatype Quote = Quote(open: real, high: real, low: real, close: real, volume: real)

  /** One row of a frame; the quote is absent when a column is missing or not a number. */
  datatype Bar = Bar(time: int, quote: Option<Quote>)

  datatype Row = Row(
    open: real, high: real, low: real, close: real, volume: nat, source: string, volumeType: string,
    complete: bool, ingestedAt: int)

  datatype Key = Key(series: Series, time: int)

  datatype Record = Record(key: Key, row: Row)

  type Table = map<Key, Row>

  /** What a call writes besides the frame: the series, the labels and the moment of ingestion. */
  datatype Origin = Origin(series: Series, source: string, volumeType: string, now: int)

  /** In seconds; an unknown timeframe has none. */
  function Duration(timeframe: string): nat {
    60 * (
      if timeframe == "1m" then 1 else if timeframe == "5m" then 5 else if timeframe == "15m" then 15
      else if timeframe == "25m" then 25 else if timeframe == "30m" then 30 else if timeframe == "1h" then 60
      else if timeframe == "4h" then 240 else if timeframe == "1d" then 1440 else 0)
  }

  /** A count and a unit: minutes, hours or days. */
  function Numeral(digits: string): nat {
    if digits == "" then 0
    else
      var last := digits[|digits| - 1];
      10 * Numeral(digits[..|digits| - 1]) + if '0' <= last <= '9' then last as nat - '0' as nat else 0
  }

  function UnitSeconds(unit: char): nat {
    if unit == 'm' then 60 else if unit == 'h' then 3600 else if unit == 'd' then 86400 else 0
  }

  const TIMEFRAMES := {"1m", "5m", "15m", "25m", "30m", "1h", "4h", "1d"}

  /** A supported timeframe lasts what its name says. */
  lemma DurationReadsTheName(timeframe: string)
    ensures Duration(timeframe) ==
      if timeframe in TIMEFRAMES
      then Numeral(timeframe[..|timeframe| - 1]) * UnitSeconds(timeframe[|timeframe| - 1])
      else 0
  {
    assert Numeral("1") == 1 by { assert "1"[..0] == ""; }
    assert Numeral("4") == 4 by { assert "4"[..0] == ""; }
    assert Numeral("5") == 5 by { assert "5"[..0] == ""; }
    assert Numeral("15") == 15 by { assert "15"[..1] == "1" && "1"[..0] == ""; }
    assert Numeral("25") == 25 by { assert "25"[..1] == "2" && "2"[..0] == ""; }
    assert Numeral("30") == 30 by { assert "30"[..1] == "3" && "3"[..0] == ""; }
    assert "1m"[..1] == "1" && "5m"[..1] == "5" && "15m"[..2] == "15" && "25m"[..2] == "25" && "30m"[..2] == "30";
    assert "1h"[..1] == "1" && "4h"[..1] == "4" && "1d"[..1] == "1";
    hide Numeral;
  }

  // ---- Normalising a frame ----

  function Usable(b: Bar): bool {
    b.quote.Some?
  }

  /** `sorted` is what sorting the usable bars by time may give: the sort need not be stable, so bars of one time may
      come in any order. */
  ghost predicate SortedByTime(sorted: seq<Bar>, frame: seq<Bar>) {
    multiset(sorted) == multiset(Filter(frame, Usable)) && NonDecreasing(sorted)
  }

  ghost predicate NonDecreasing(bars: seq<Bar>) {
    forall i, j :: 0 <= i < j < |bars| ==> bars[i].time <= bars[j].time
  }

  ghost predicate HasTime(bars: seq<Bar>, time: int) {
    exists b :: b in bars && b.time == time
  }

  /** Of each run of bars of one time, the last. */
  function KeepLast(sorted: seq<Bar>): seq<Bar> {
    if |sorted| <= 1 then sorted
    else if sorted[0].time == sorted[1].time then KeepLast(sorted[1..])
    else [sorted[0]] + KeepLast(sorted[1..])
  }

  /** No two usable bars share a time. */
  ghost predicate UniqueTimes(bars: seq<Bar>) {
    forall b, c :: b in bars && c in bars && b.quote.Some? && c.quote.Some? && b.time == c.time ==> b == c
  }

  ghost predicate Increasing(bars: seq<Bar>) {
    forall i, j :: 0 <= i < j < |bars| ==> bars[i].time < bars[j].time
  }

  lemma {:induction false} KeepLastMeans(sorted: seq<Bar>)
    requires NonDecreasing(sorted)
    ensures Increasing(KeepLast(sorted))
    ensures forall b :: b in KeepLast(sorted) ==> b in sorted
    ensures forall b :: b in sorted ==> HasTime(KeepLast(sorted), b.time)
  {
    hide NonDecreasing, Increasing, HasTime;
    if |sorted| <= 1 {
      AtMostOne(sorted);
    } else {
      var first, rest := sorted[0], sorted[1..];
      assert sorted == [first] + rest;
      TailOf(sorted);
      KeepLastMeans(rest);
      InFront(first, KeepLast(rest));
    }
  }

  lemma AtMostOne(sorted: seq<Bar>)
    requires |sorted| <= 1
    ensures Increasing(sorted) && forall b :: b in sorted ==> HasTime(sorted, b.time)
  {
  }

  lemma TailOf(sorted: seq<Bar>)
    requires NonDecreasing(sorted) && |sorted| > 1
    ensures NonDecreasing(sorted[1..]) && sorted[1] in sorted[1..]
    ensures forall b :: b in sorted[1..] ==> sorted[0].time <= sorted[1].time <= b.time
  {
    assert sorted[1..][0] == sorted[1];
  }

  lemma InFront(first: Bar, bars: seq<Bar>)
    ensures Increasing(bars) && (forall b :: b in bars ==> first.time < b.time) ==> Increasing([first] + bars)
    ensures forall t :: HasTime([first] + bars, t) <==> t == first.time || HasTime(bars, t)
  {
    forall t | HasTime([first] + bars, t) ensures t == first.time || HasTime(bars, t) {
      var b :| b in [first] + bars && b.time == t;
    }
    forall t | t == first.time || HasTime(bars, t) ensures HasTime([first] + bars, t) {
      assert first in [first] + bars;
      if t != first.time {
        var b :| b in bars && b.time == t;
        assert b in [first] + bars;
      }
    }
  }

  /** A normalised frame holds usable bars of the frame in increasing time, one for every time of a usable bar; when no
      two usable bars share a time, it holds exactly the usable bars. */
  lemma NormalisedMeans(g: Ingest)
    requires SortedByTime(g.sorted, g.frame)
    ensures Increasing(Normalised(g)) && AllUsable(Normalised(g))
    ensures forall b :: b in Normalised(g) ==> b in g.frame
    ensures forall b :: b in g.frame && b.quote.Some? ==> HasTime(Normalised(g), b.time)
    ensures UniqueTimes(g.frame) ==> forall b :: b in Normalised(g) <==> b in g.frame && b.quote.Some?
  {
    hide KeepLast, Filter, Increasing, UniqueTimes, HasTime;
    KeepLastMeans(g.sorted);
    SortingKeepsBars(g);
    if UniqueTimes(g.frame) {
      NothingIsDropped(g.frame, Normalised(g));
    }
  }

  lemma SortingKeepsBars(g: Ingest)
    requires SortedByTime(g.sorted, g.frame)
    ensures forall b :: b in g.sorted <==> b in g.frame && b.quote.Some?
  {
    FilterMembers(g.frame, Usable);
    forall b ensures b in g.sorted <==> b in Filter(g.frame, Usable) {
      assert b in g.sorted <==> b in multiset(g.sorted);
    }
    hide Filter;
  }

  lemma NothingIsDropped(frame: seq<Bar>, kept: seq<Bar>)
    requires UniqueTimes(frame) && forall b :: b in kept ==> b in frame && b.quote.Some?
    requires forall b :: b in frame && b.quote.Some? ==> HasTime(kept, b.time)
    ensures forall b :: b in kept <==> b in frame && b.quote.Some?
  {
    forall b | b in frame && b.quote.Some? ensures b in kept {
      var x :| x in kept && x.time == b.time;
    }
  }

  // ---- Writing ----

  predicate Complete(timeframe: string, time: int, now: int) {
    Duration(timeframe) == 0 || time + Duration(timeframe) <= now
  }

  function RecordOf(b: Bar, o: Origin): Record
    requires b.quote.Some?
  {
    var q := b.quote.value;
    Record(Key(o.series, b.time),
           Row(q.open, q.high, q.low, q.close, if q.volume < 0.0 then 0 else q.volume.Floor, o.source, o.volumeType,
               Complete(o.series.timeframe, b.time, o.now), o.now))
  }

  predicate AllUsable(bars: seq<Bar>) {
    forall b :: b in bars ==> b.quote.Some?
  }

  function RecordsOf(bars: seq<Bar>, o: Origin): (records: seq<Record>)
    requires AllUsable(bars)
    ensures |records| == |bars| && forall i :: 0 <= i < |bars| ==> records[i] == RecordOf(bars[i], o)
  {
    if bars == [] then [] else RecordsOf(bars[..|bars| - 1], o) + [RecordOf(bars[|bars| - 1], o)]
  }

  /** One upsert statement: each record replaces the row under its key. */
  function Upsert(table: Table, records: seq<Record>): Table {
    if records == [] then table
    else
      var last := records[|records| - 1];
      Upsert(table, records[..|records| - 1])[last.key := last.row]
  }

  /** Python's `records[from_:to]`: a negative bound counts from the end, and a slice that ends before it starts is
      empty. */
  function Slice(records: seq<Record>, from_: nat, to: int): seq<Record> {
    var n := |records|;
    var stop := if to < 0 then (if to + n < 0 then 0 else to + n) else if to < n then to else n;
    if from_ < stop then records[from_..stop] else []
  }

  function Stride(chunk: int): nat {
    if chunk < 1 then 1 else chunk
  }

  /** The chunks from this offset on, one statement each. */
  function UpsertFrom(table: Table, records: seq<Record>, chunk: int, offset: nat): Table
    decreases |records| - offset
  {
    if offset >= |records| then table
    else UpsertFrom(Upsert(table, Slice(records, offset, offset + chunk)), records, chunk, offset + Stride(chunk))
  }

  lemma {:induction false} UpsertAppend(table: Table, xs: seq<Record>, ys: seq<Record>)
    ensures Upsert(table, xs + ys) == Upsert(Upsert(table, xs), ys)
    decreases |ys|
  {
    if ys == [] {
      assert xs + ys == xs;
    } else {
      UpsertAppend(table, xs, ys[..|ys| - 1]);
      assert (xs + ys)[..|xs + ys| - 1] == xs + ys[..|ys| - 1];
    }
  }

  /** Chunking changes nothing: any positive chunk size writes what a single statement would. */
  lemma {:induction false} ChunksWriteEverything(table: Table, records: seq<Record>, chunk: int, offset: nat)
    requires chunk >= 1 && offset <= |records|
    ensures UpsertFrom(table, records, chunk, offset) == Upsert(table, records[offset..])
    decreases |records| - offset
  {
    if offset < |records| {
      var next := if offset + chunk < |records| then offset + chunk else |records|;
      var table1 := Upsert(table, records[offset..next]);
      ChunkStep(table, records, chunk, offset);
      ChunksWriteEverything(table1, records, chunk, next);
      UpsertAppend(table, records[offset..next], records[next..]);
      FirstChunk(records, offset, chunk);
      hide *;
    }
  }

  lemma ChunkStep(table: Table, records: seq<Record>, chunk: int, offset: nat)
    requires chunk >= 1 && offset < |records|
    ensures var next := if offset + chunk < |records| then offset + chunk else |records|;
      UpsertFrom(table, records, chunk, offset) ==
        UpsertFrom(Upsert(table, records[offset..next]), records, chunk, next)
  {
    FirstChunk(records, offset, chunk);
    hide Slice, Upsert;
  }

  lemma FirstChunk(records: seq<Record>, offset: nat, chunk: int)
    requires chunk >= 1 && offset < |records|
    ensures var next := if offset + chunk < |records| then offset + chunk else |records|;
      && Slice(records, offset, offset + chunk) == records[offset..next]
      && records[offset..] == records[offset..next] + records[next..]
  {
  }

  lemma {:induction false} LastStaysUnwritten(table: Table, records: seq<Record>, chunk: int, offset: nat, key: Key)
    requires chunk < 1 && records != [] && key !in table
    requires forall i :: 0 <= i < |records| - 1 ==> records[i].key != key
    ensures key !in UpsertFrom(table, records, chunk, offset)
    decreases |records| - offset
  {
    if offset < |records| {
      var part := Slice(records, offset, offset + chunk);
      assert forall r :: r in part ==> r.key != key;
      UpsertKeys(table, part);
      LastStaysUnwritten(Upsert(table, part), records, chunk, offset + 1, key);
    }
  }

  lemma {:induction false} UpsertKeys(table: Table, records: seq<Record>)
    ensures forall k :: k in Upsert(table, records) <==> k in table || exists r :: r in records && r.key == k
    decreases |records|
  {
    if records != [] {
      UpsertKeys(table, records[..|records| - 1]);
      assert records == records[..|records| - 1] + [records[|records| - 1]];
    }
  }

  ghost predicate DistinctKeys(records: seq<Record>) {
    forall i, j :: 0 <= i < j < |records| ==> records[i].key != records[j].key
  }

  /** The exact condition: a chunk size writes every frame into an empty store exactly when it is at least one, or the
      frame is empty. A smaller one never writes the latest candle. */
  lemma EverythingIsWrittenIff(records: seq<Record>, chunk: int)
    requires DistinctKeys(records)
    ensures UpsertFrom(map[], records, chunk, 0) == Upsert(map[], records) <==> chunk >= 1 || records == []
  {
    if chunk >= 1 {
      ChunksWriteEverything(map[], records, chunk, 0);
      assert records[0..] == records;
    } else if records != [] {
      var last := records[|records| - 1];
      LastStaysUnwritten(map[], records, chunk, 0, last.key);
      UpsertKeys(map[], records);
      assert last in records;
    }
  }

  lemma {:induction false} WrittenEitherWay(s: Table, t: Table, records: seq<Record>, key: Key)
    requires exists r :: r in records && r.key == key
    ensures At(Upsert(s, records), key) == At(Upsert(t, records), key)
    decreases |records|
  {
    var front, last := records[..|records| - 1], records[|records| - 1];
    assert records == front + [last];
    if last.key != key {
      WrittenEitherWay(s, t, front, key);
    }
  }

  /** Writing records again right after writing them changes nothing. */
  lemma WrittenTwice(table: Table, records: seq<Record>)
    ensures Upsert(Upsert(table, records), records) == Upsert(table, records)
  {
    var once := Upsert(table, records);
    forall key ensures At(Upsert(once, records), key) == At(once, key) {
      if exists r :: r in records && r.key == key {
        WrittenEitherWay(once, table, records, key);
      } else {
        UpsertElsewhere(once, records, key);
      }
    }
    SameTables(Upsert(once, records), once);
  }

  lemma SameTables(s: Table, t: Table)
    requires forall key :: At(s, key) == At(t, key)
    ensures s == t
  {
    forall key ensures key in s <==> key in t {
      assert At(s, key) == At(t, key);
    }
    forall key | key in s ensures s[key] == t[key] {
      assert At(s, key) == At(t, key);
    }
  }

  /** The next overlapping chunk adds one record to what is written. */
  lemma OverlappingChunk(table: Table, records: seq<Record>, from_: nat, to: nat)
    requires from_ <= to < |records|
    ensures Upsert(Upsert(table, records[..to]), records[from_..to + 1]) == Upsert(table, records[..to + 1])
  {
    var a, b, x := records[..from_], records[from_..to], [records[to]];
    assert records[..to] == a + b && records[from_..to + 1] == b + x && records[..to + 1] == (a + b) + x;
    UpsertAppend(table, a, b);
    UpsertAppend(Upsert(table, a + b), b, x);
    WrittenTwice(Upsert(table, a), b);
    UpsertAppend(table, a + b, x);
    hide *;
  }

  lemma {:induction false} NothingMoreIsWritten(table: Table, records: seq<Record>, chunk: int, offset: nat)
    requires chunk < 1 && (offset >= -chunk || |records| <= -chunk)
    ensures UpsertFrom(table, records, chunk, offset) == table
    decreases |records| - offset
  {
    if offset < |records| {
      assert Slice(records, offset, offset + chunk) == [];
      NothingMoreIsWritten(table, records, chunk, offset + 1);
    }
  }

  lemma {:induction false} OverlappingChunks(table: Table, records: seq<Record>, chunk: int, offset: nat)
    requires chunk < 0 && 1 <= offset <= -chunk < |records|
    ensures UpsertFrom(Upsert(table, records[..|records| + chunk + offset - 1]), records, chunk, offset) ==
      Upsert(table, records[..|records| - 1])
    decreases |records| - offset
  {
    var to := |records| + chunk + offset - 1;
    if offset == -chunk {
      NothingMoreIsWritten(Upsert(table, records[..to]), records, chunk, offset);
    } else {
      OverlappingChunk(table, records, offset, to);
      OverlappingChunks(table, records, chunk, offset + 1);
      hide Upsert;
      assert Slice(records, offset, offset + chunk) == records[offset..to + 1];
    }
  }

  /** What every chunk size writes: a positive one everything, a negative one all but the last record of a longer list,
      and otherwise nothing. */
  lemma WhatIsWritten(table: Table, records: seq<Record>, chunk: int)
    ensures UpsertFrom(table, records, chunk, 0) ==
      if chunk >= 1 then Upsert(table, records)
      else if 0 < -chunk < |records| then Upsert(table, records[..|records| - 1])
      else table
  {
    if chunk >= 1 {
      ChunksWriteEverything(table, records, chunk, 0);
      assert records[0..] == records;
    } else if 0 < -chunk < |records| {
      hide Upsert;
      assert Slice(records, 0, chunk) == records[..|records| + chunk];
      OverlappingChunks(table, records, chunk, 1);
    } else {
      NothingMoreIsWritten(table, records, chunk, 0);
    }
  }

  // ---- Whole ingests ----

  /** `sorted` is the order the sort gave the usable bars of the frame. */
  datatype Ingest = Ingest(frame: seq<Bar>, sorted: seq<Bar>, origin: Origin, chunk: int)

  function Normalised(g: Ingest): seq<Bar> {
    KeepLast(g.sorted)
  }

  ghost predicate Sound(g: Ingest) {
    SortedByTime(g.sorted, g.frame) && g.chunk >= 1
  }

  function Writes(g: Ingest): (records: seq<Record>)
    requires AllUsable(Normalised(g))
  {
    RecordsOf(Normalised(g), g.origin)
  }

  ghost function Ingested(table: Table, g: Ingest): Table
    requires Sound(g)
  {
    NormalisedMeans(g);
    UpsertFrom(table, Writes(g), g.chunk, 0)
  }

  function At(table: Table, key: Key): Option<Row> {
    if key in table then Some(table[key]) else None
  }

  function BarAt(frame: seq<Bar>, time: int): Option<Bar> {
    if frame == [] then None
    else if frame[|frame| - 1].quote.Some? && frame[|frame| - 1].time == time then Some(frame[|frame| - 1])
    else BarAt(frame[..|frame| - 1], time)
  }

  /** The row an ingest writes under a key, if any. */
  function WrittenBy(g: Ingest, key: Key): Option<Row> {
    var b := BarAt(Normalised(g), key.time);
    if g.origin.series == key.series && b.Some? && b.value.quote.Some? then Some(RecordOf(b.value, g.origin).row)
      else None
  }

  lemma {:induction false} BarAtMeans(frame: seq<Bar>, time: int)
    requires Increasing(frame)
    ensures var b := BarAt(frame, time);
      && (b.Some? ==> b.value in frame && b.value.quote.Some? && b.value.time == time)
      && (forall x :: x in frame && x.quote.Some? && x.time == time ==> b == Some(x))
      && (b.None? && AllUsable(frame) ==> !HasTime(frame, time))
  {
    if frame != [] {
      var front, last := frame[..|frame| - 1], frame[|frame| - 1];
      assert frame == front + [last];
      BarAtMeans(front, time);
    }
  }

  lemma {:induction false} UpsertAt(table: Table, records: seq<Record>, r: Record)
    requires DistinctKeys(records) && r in records
    ensures At(Upsert(table, records), r.key) == Some(r.row)
    decreases |records|
  {
    var front, last := records[..|records| - 1], records[|records| - 1];
    assert records == front + [last];
    if r != last {
      UpsertAt(table, front, r);
      var i :| 0 <= i < |front| && front[i] == r;
      assert records[i] == r;
    }
  }

  lemma {:induction false} UpsertElsewhere(table: Table, records: seq<Record>, key: Key)
    requires forall r :: r in records ==> r.key != key
    ensures At(Upsert(table, records), key) == At(table, key)
    decreases |records|
  {
    if records != [] {
      assert records == records[..|records| - 1] + [records[|records| - 1]];
      UpsertElsewhere(table, records[..|records| - 1], key);
    }
  }

  lemma WritesMeans(g: Ingest, key: Key)
    requires Sound(g)
    ensures AllUsable(Normalised(g)) && DistinctKeys(Writes(g))
    ensures WrittenBy(g, key).Some? ==> Record(key, WrittenBy(g, key).value) in Writes(g)
    ensures WrittenBy(g, key).None? ==> forall r :: r in Writes(g) ==> r.key != key
  {
    var bars := Normalised(g);
    hide KeepLast, SortedByTime, UniqueTimes, HasTime, BarAt, RecordOf;
    NormalisedMeans(g);
    BarAtMeans(bars, key.time);
    KeysDiffer(bars, g.origin);
    RecordKeys(bars, g.origin);
  }

  lemma KeysDiffer(bars: seq<Bar>, o: Origin)
    requires AllUsable(bars) && Increasing(bars)
    ensures DistinctKeys(RecordsOf(bars, o))
  {
  }

  lemma RecordKeys(bars: seq<Bar>, o: Origin)
    requires AllUsable(bars)
    ensures forall b :: b in bars ==>
      RecordOf(b, o) in RecordsOf(bars, o) && RecordOf(b, o).key == Key(o.series, b.time)
    ensures forall r :: r in RecordsOf(bars, o) ==> r.key.series == o.series && HasTime(bars, r.key.time)
  {
    forall b | b in bars ensures RecordOf(b, o) in RecordsOf(bars, o) {
      var i :| 0 <= i < |bars| && bars[i] == b;
      assert RecordsOf(bars, o)[i] == RecordOf(b, o);
    }
    forall r | r in RecordsOf(bars, o) ensures r.key.series == o.series && HasTime(bars, r.key.time) {
      var i :| 0 <= i < |bars| && RecordsOf(bars, o)[i] == r;
      assert bars[i] in bars;
    }
  }

  /** An ingest overwrites exactly the keys of its usable bars, in its own series, with its own rows, whatever the order
      of the frame and the size of the chunks; every other row of every series stays as it was. */
  lemma IngestOverlays(table: Table, g: Ingest, key: Key)
    requires Sound(g)
    ensures At(Ingested(table, g), key) == if WrittenBy(g, key).Some? then WrittenBy(g, key) else At(table, key)
  {
    NormalisedMeans(g);
    WritesMeans(g, key);
    ChunksWriteEverything(table, Writes(g), g.chunk, 0);
    assert Writes(g)[0..] == Writes(g);
    if WrittenBy(g, key).Some? {
      UpsertAt(table, Writes(g), Record(key, WrittenBy(g, key).value));
    } else {
      UpsertElsewhere(table, Writes(g), key);
    }
    hide Writes, WrittenBy, UpsertFrom, Upsert, DistinctKeys;
  }

  /** The row is the bar as written: its prices, its volume cut to a whole number of at least zero, its labels, and
      complete exactly when its period was over at ingestion. */
  predicate ReadsBack(row: Row, b: Bar, o: Origin)
    requires b.quote.Some?
  {
    var q := b.quote.value;
    && row.open == q.open && row.high == q.high && row.low == q.low && row.close == q.close
    && (q.volume >= 0.0 ==> row.volume as real <= q.volume < row.volume as real + 1.0)
    && (q.volume < 0.0 ==> row.volume == 0)
    && row.source == o.source && row.volumeType == o.volumeType && row.ingestedAt == o.now
    && (row.complete <==> Duration(o.series.timeframe) == 0 || b.time + Duration(o.series.timeframe) <= o.now)
  }

  /** At the time of every usable bar of a frame a usable bar of that time reads back as written; and when no two usable
      bars share a time, that bar itself. */
  lemma ReadBackAsWritten(table: Table, g: Ingest, b: Bar)
    requires Sound(g) && b in g.frame && b.quote.Some?
    ensures var key := Key(g.origin.series, b.time);
      && key in Ingested(table, g)
      && (exists x :: (x in g.frame && x.quote.Some? && x.time == b.time
                       && ReadsBack(Ingested(table, g)[key], x, g.origin)))
      && (UniqueTimes(g.frame) ==> ReadsBack(Ingested(table, g)[key], b, g.origin))
  {
    hide KeepLast, SortedByTime, UniqueTimes, BarAt, Ingested, ReadsBack;
    var key := Key(g.origin.series, b.time);
    NormalisedMeans(g);
    BarAtMeans(Normalised(g), b.time);
    IngestOverlays(table, g, key);
    var x :| x in Normalised(g) && x.time == b.time;
    assert WrittenBy(g, key) == Some(RecordOf(x, g.origin).row);
    RecordReadsBack(x, g.origin);
    assert x in g.frame;
  }

  lemma RecordReadsBack(b: Bar, o: Origin)
    requires b.quote.Some?
    ensures ReadsBack(RecordOf(b, o).row, b, o)
  {
    hide Duration;
  }

  // ---- Runs of ingests ----

  ghost predicate AllSound(gs: seq<Ingest>) {
    forall g :: g in gs ==> Sound(g)
  }

  ghost function Run(table: Table, gs: seq<Ingest>): Table
    requires AllSound(gs)
  {
    if gs == [] then table else Ingested(Run(table, gs[..|gs| - 1]), gs[|gs| - 1])
  }

  /** What the last ingest that mentions a key wrote there. */
  function LastWritten(gs: seq<Ingest>, key: Key): Option<Row> {
    if gs == [] then None
    else
      var row := WrittenBy(gs[|gs| - 1], key);
      if row.Some? then row else LastWritten(gs[..|gs| - 1], key)
  }

  /** The last writer wins: after any overlapping ingests, every key holds what the last ingest mentioning it wrote, and
      keys nobody mentioned hold what they held before. */
  lemma {:induction false} LastWriterWins(table: Table, gs: seq<Ingest>, key: Key)
    requires AllSound(gs)
    ensures At(Run(table, gs), key) == if LastWritten(gs, key).Some? then LastWritten(gs, key) else At(table, key)
    decreases |gs|
  {
    if gs != [] {
      LastWriterWins(table, gs[..|gs| - 1], key);
      IngestOverlays(Run(table, gs[..|gs| - 1]), gs[|gs| - 1], key);
      hide Ingested, WrittenBy, Sound;
    }
  }

  ghost predicate ClockOnlyAdvances(gs: seq<Ingest>) {
    forall i, j :: 0 <= i <= j < |gs| ==> gs[i].origin.now <= gs[j].origin.now
  }

  ghost predicate IsComplete(table: Table, key: Key) {
    key in table && table[key].complete
  }

  lemma {:induction false} CompleteWhenWritten(gs: seq<Ingest>, key: Key)
    requires LastWritten(gs, key).Some? && ClockOnlyAdvances(gs)
    ensures gs != []
    ensures LastWritten(gs, key).value.complete ==> Complete(key.series.timeframe, key.time, gs[|gs| - 1].origin.now)
    decreases |gs|
  {
    if WrittenBy(gs[|gs| - 1], key).Some? {
      BarAtTime(Normalised(gs[|gs| - 1]), key.time);
    } else {
      CompleteWhenWritten(gs[..|gs| - 1], key);
    }
  }

  lemma {:induction false} BarAtTime(frame: seq<Bar>, time: int)
    ensures BarAt(frame, time).Some? ==> BarAt(frame, time).value.time == time
  {
    if frame != [] {
      BarAtTime(frame[..|frame| - 1], time);
    }
  }

  /** While the clock does not run backwards, a candle that is complete stays complete, however often it is ingested
      again. */
  lemma {:induction false} CompleteStaysComplete(gs: seq<Ingest>, i: nat, key: Key)
    requires AllSound(gs) && ClockOnlyAdvances(gs) && i <= |gs|
    requires AllSound(gs[..i]) && IsComplete(Run(map[], gs[..i]), key)
    ensures IsComplete(Run(map[], gs), key)
    decreases |gs|
  {
    if i == |gs| {
      assert gs[..i] == gs;
    } else {
      var front, last := gs[..|gs| - 1], gs[|gs| - 1];
      assert front[..i] == gs[..i];
      CompleteStaysComplete(front, i, key);
      LastWriterWins(map[], front, key);
      LastWriterWins(map[], gs, key);
      CompleteWhenWritten(front, key);
      BarAtTime(Normalised(last), key.time);
      hide Run, BarAt;
    }
  }
}
