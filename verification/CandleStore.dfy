/** Writing, loading and measuring the candles of one store. */
module CandleStore {
  import opened Common
  import opened Candles

  /** Bounds on the candle time and on completeness. */
  datatype Window = Window(start: Option<int>, end: Option<int>, completeOnly: bool)

  predicate InWindow(k: Key, r: Row, series: Series, w: Window) {
    && k.series == series
    && (w.start.Some? ==> w.start.value <= k.time)
    && (w.end.Some? ==> k.time <= w.end.value)
    && (w.completeOnly ==> r.complete)
  }

  function Selected(table: Table, series: Series, w: Window): set<Key> {
    set k | k in table && InWindow(k, table[k], series, w)
  }

  ghost predicate Ascending(keys: seq<Key>) {
    forall i, j :: 0 <= i < j < |keys| ==> keys[i].time < keys[j].time
  }

  ghost predicate Descending(keys: seq<Key>) {
    forall i, j :: 0 <= i < j < |keys| ==> keys[i].time > keys[j].time
  }

  /** A stored candle of the series that is neither before the start, nor after the end, nor incomplete where only
      complete ones count. */
  ghost predicate Loads(k: Key, table: Table, series: Series, w: Window) {
    && k in table && k.series == series
    && !(w.start.Some? && k.time < w.start.value)
    && !(w.end.Some? && w.end.value < k.time)
    && (table[k].complete || !w.completeOnly)
  }

  /** What a full load is: the candles to load in ascending time. */
  ghost predicate IsFullLoad(keys: seq<Key>, table: Table, series: Series, w: Window) {
    Ascending(keys) && forall k :: k in keys <==> Loads(k, table, series, w)
  }

  lemma SelectedAreLoaded(table: Table, series: Series, w: Window)
    ensures forall k :: k in Selected(table, series, w) <==> Loads(k, table, series, w)
  {
  }

  /** There is only one. */
  lemma {:induction false} FullLoadIsUnique(xs: seq<Key>, ys: seq<Key>)
    requires Ascending(xs) && Ascending(ys) && forall k :: k in xs <==> k in ys
    ensures xs == ys
    decreases |xs|
  {
    if xs == [] || ys == [] {
      BothEmpty(xs, ys);
    } else {
      SameLast(xs, ys);
      FullLoadIsUnique(xs[..|xs| - 1], ys[..|ys| - 1]);
      assert xs == xs[..|xs| - 1] + [xs[|xs| - 1]] && ys == ys[..|ys| - 1] + [ys[|ys| - 1]];
    }
  }

  lemma BothEmpty(xs: seq<Key>, ys: seq<Key>)
    requires (xs == [] || ys == []) && forall k :: k in xs <==> k in ys
    ensures xs == ys == []
  {
    HasMember(xs);
    HasMember(ys);
  }

  lemma HasMember(keys: seq<Key>)
    ensures keys == [] || exists k :: k in keys
  {
    if keys != [] {
      assert keys[0] in keys;
    }
  }

  lemma SameLast(xs: seq<Key>, ys: seq<Key>)
    requires Ascending(xs) && Ascending(ys) && xs != [] && ys != [] && forall k :: k in xs <==> k in ys
    ensures xs[|xs| - 1] == ys[|ys| - 1]
    ensures var xfront, yfront := xs[..|xs| - 1], ys[..|ys| - 1];
      Ascending(xfront) && Ascending(yfront) && forall k :: k in xfront <==> k in yfront
  {
    LastIsGreatest(xs);
    LastIsGreatest(ys);
    hide Ascending;
    assert xs[|xs| - 1] in ys && ys[|ys| - 1] in xs;
  }

  lemma LastIsGreatest(keys: seq<Key>)
    requires Ascending(keys) && keys != []
    ensures var last, front := keys[|keys| - 1], keys[..|keys| - 1];
      && Ascending(front)
      && (forall k :: k in keys ==> k == last || k.time < last.time)
      && (forall k :: k in front <==> k in keys && k != last)
  {
    var last, front := keys[|keys| - 1], keys[..|keys| - 1];
    assert keys == front + [last];
    forall k | k in front ensures k.time < last.time {
      var i :| 0 <= i < |front| && front[i] == k;
      assert keys[i] == k;
    }
  }

  function Descend(rows: seq<Key>, k: Key): seq<Key> {
    if rows == [] || k.time > rows[0].time then [k] + rows else [rows[0]] + Descend(rows[1..], k)
  }

  lemma {:induction false} DescendKeepsOrder(rows: seq<Key>, k: Key)
    requires Descending(rows) && forall r :: r in rows ==> r.time != k.time
    ensures Descending(Descend(rows, k)) && forall r :: r in Descend(rows, k) <==> r in rows || r == k
  {
    if rows != [] {
      assert rows == [rows[0]] + rows[1..];
      if k.time < rows[0].time {
        DescendKeepsOrder(rows[1..], k);
        var rest := Descend(rows[1..], k);
        forall i | 0 <= i < |rest| ensures rows[0].time > rest[i].time {
          assert rest[i] in rest;
        }
      }
    }
  }

  function Reversed<T>(xs: seq<T>): (ys: seq<T>)
    ensures |ys| == |xs| && forall i :: 0 <= i < |xs| ==> ys[i] == xs[|xs| - 1 - i]
  {
    if xs == [] then [] else [xs[|xs| - 1]] + Reversed(xs[..|xs| - 1])
  }

  /** How many rows a limit leaves: a limit below one still leaves one. */
  function Limited(available: nat, bars: Option<int>): (n: nat)
    ensures n <= available && (available > 0 ==> n > 0)
  {
    if bars.None? then available
    else
      var limit := if bars.value < 1 then 1 else bars.value;
      if limit < available then limit else available
  }

  /** The list is as long as the limit, or shorter when there is no more; a limit below one counts as one. */
  predicate FillsLimit(length: nat, available: nat, bars: Option<int>) {
    match bars
    case None => length == available
    case Some(limit) => (length <= limit || length <= 1) && (length < available ==> length >= 1 && length >= limit)
  }

  /** The newest `bars` rows of the full load, oldest first, and at least one. */
  ghost predicate IsNewest(keys: seq<Key>, table: Table, series: Series, bars: Option<int>, w: Window) {
    && keys != []
    && exists full :: (IsFullLoad(full, table, series, w) && |keys| <= |full| && FillsLimit(|keys|, |full|, bars)
                       && keys == full[|full| - |keys|..])
  }

  lemma NothingSelected(rows: seq<Key>, table: Table, series: Series, w: Window)
    requires forall k :: k in rows <==> k in Selected(table, series, w)
    ensures rows == [] <==> Selected(table, series, w) == {}
  {
    assert rows != [] ==> rows[0] in Selected(table, series, w);
  }

  lemma NewestOfQuery(rows: seq<Key>, table: Table, series: Series, bars: Option<int>, w: Window)
    requires Descending(rows) && rows != [] && forall k :: k in rows <==> k in Selected(table, series, w)
    ensures var newest := Reversed(rows[..Limited(|rows|, bars)]);
      IsNewest(newest, table, series, bars, w) && forall k :: k in newest ==> k in table
  {
    hide *;
    var n := Limited(|rows|, bars);
    SameMembers(rows);
    AscendingOnceReversed(rows, table, series, w);
    var full, newest := Reversed(rows), Reversed(rows[..n]);
    assert newest == full[|full| - n..];
    Suffix(full, |full| - n);
    FoundNewest(full, newest, table, series, bars, w);
    SelectedAreStored(table, series, w);
  }

  lemma AscendingOnceReversed(rows: seq<Key>, table: Table, series: Series, w: Window)
    requires Descending(rows) && forall k :: k in Reversed(rows) <==> k in Selected(table, series, w)
    ensures IsFullLoad(Reversed(rows), table, series, w)
  {
    SelectedAreLoaded(table, series, w);
    hide Selected, Reversed, Loads;
  }

  lemma FoundNewest(full: seq<Key>, newest: seq<Key>, table: Table, series: Series, bars: Option<int>, w: Window)
    requires IsFullLoad(full, table, series, w) && newest != [] && |newest| == Limited(|full|, bars)
    requires newest == full[|full| - |newest|..]
    ensures IsNewest(newest, table, series, bars, w)
  {
    hide IsFullLoad;
  }

  lemma SelectedAreStored(table: Table, series: Series, w: Window)
    ensures forall k :: k in Selected(table, series, w) ==> k in table
  {
  }

  class Store {
    var table: Table

    constructor ()
      ensures table == map[]
    {
      table := map[];
    }

    /** Normalises the frame, builds the records and writes them chunk by chunk. */
    method UpsertFrame(g: Ingest) returns (written: nat)
      requires SortedByTime(g.sorted, g.frame)
      modifies this
      ensures written == |Normalised(g)|
      ensures AllUsable(Normalised(g)) && table == UpsertFrom(old(table), Writes(g), g.chunk, 0)
      ensures g.chunk >= 1 ==> table == Ingested(old(table), g)
    {
      NormalisedMeans(g);
      var normalised := Normalised(g);
      if normalised == [] {
        return 0;
      }
      var records := BuildRecords(normalised, g.origin);
      hide *;
      WriteChunks(records, g.chunk);
      return |records|;
    }

    method BuildRecords(bars: seq<Bar>, o: Origin) returns (records: seq<Record>)
      requires AllUsable(bars)
      ensures records == RecordsOf(bars, o)
    {
      records := [];
      for i := 0 to |bars|
        invariant AllUsable(bars[..i]) && records == RecordsOf(bars[..i], o)
      {
        assert bars[..i + 1] == bars[..i] + [bars[i]] && bars[..i + 1][..i] == bars[..i];
        assert bars[i] in bars;
        records := records + [RecordOf(bars[i], o)];
        hide RecordOf;
      }
      assert bars[..|bars|] == bars;
    }

    /** The chunked loop, for any chunk size. */
    method WriteChunks(records: seq<Record>, chunk: int)
      modifies this
      ensures table == UpsertFrom(old(table), records, chunk, 0)
    {
      var offset := 0;
      hide Slice, Upsert;
      while offset < |records|
        invariant UpsertFrom(table, records, chunk, offset) == UpsertFrom(old(table), records, chunk, 0)
        decreases |records| - offset
      {
        UpsertRecords(Slice(records, offset, offset + chunk));
        offset := offset + Stride(chunk);
      }
    }

    /** One statement in one transaction; an empty list is not sent. */
    method UpsertRecords(records: seq<Record>)
      modifies this
      ensures table == Upsert(old(table), records)
    {
      for i := 0 to |records|
        invariant table == Upsert(old(table), records[..i])
      {
        assert records[..i + 1][..i] == records[..i];
        table := table[records[i].key := records[i].row];
      }
      assert records[..|records|] == records;
    }

    /** The query: the selected keys, newest first. */
    method Query(series: Series, w: Window) returns (rows: seq<Key>)
      ensures Descending(rows) && forall k :: k in rows <==> k in Selected(table, series, w)
    {
      var remaining := Selected(table, series, w);
      rows := [];
      while remaining != {}
        invariant Descending(rows) && remaining <= Selected(table, series, w)
        invariant forall k :: k in rows <==> k in Selected(table, series, w) && k !in remaining
        decreases remaining
      {
        var k :| k in remaining;
        assert forall r :: r in rows ==> r.time != k.time || r == k;
        DescendKeepsOrder(rows, k);
        rows := Descend(rows, k);
        remaining := remaining - {k};
      }
    }

    /** Loads the newest `bars` candles of the window in ascending time: the suffix of that length of the full load,
        each with the row the store holds. Nothing is loaded exactly when nothing is selected. */
    method LoadFrame(series: Series, bars: Option<int>, w: Window) returns (frame: Option<seq<Record>>)
      ensures frame.None? <==> forall k :: !Loads(k, table, series, w)
      ensures frame.Some? ==>
        && IsNewest(Keys(frame.value), table, series, bars, w)
        && (forall i :: 0 <= i < |frame.value| ==>
            frame.value[i].key in table && frame.value[i].row == table[frame.value[i].key])
    {
      var rows := Query(series, w);
      NothingSelected(rows, table, series, w);
      SelectedAreLoaded(table, series, w);
      if rows == [] {
        return None;
      }
      var newest := Reversed(rows[..Limited(|rows|, bars)]);
      NewestOfQuery(rows, table, series, bars, w);
      hide *;
      var loaded := Attach(newest);
      return Some(loaded);
    }

    method Attach(rows: seq<Key>) returns (loaded: seq<Record>)
      requires forall k :: k in rows ==> k in table
      ensures Keys(loaded) == rows
      ensures forall j :: 0 <= j < |loaded| ==> loaded[j].key in table && loaded[j].row == table[loaded[j].key]
    {
      loaded := [];
      for i := 0 to |rows|
        invariant Keys(loaded) == rows[..i]
        invariant forall j :: 0 <= j < |loaded| ==> loaded[j].key in table && loaded[j].row == table[loaded[j].key]
      {
        assert rows[i] in rows;
        ghost var before := loaded;
        loaded := loaded + [Record(rows[i], table[rows[i]])];
        assert loaded[..|before|] == before;
      }
      assert rows[..|rows|] == rows;
    }

    /** First and last candle and row count of a series, agreeing with its full load. */
    method Coverage(series: Series) returns (first: Option<int>, last: Option<int>, rows: nat)
      ensures forall full: seq<Key> :: IsFullLoad(full, table, series, Window(None, None, false)) ==>
        && rows == |full|
        && (first.Some? <==> full != []) && (last.Some? <==> full != [])
        && (full != [] ==> first.value == full[0].time && last.value == full[|full| - 1].time)
    {
      var found := Query(series, Window(None, None, false));
      rows := |found|;
      first, last := None, None;
      if found != [] {
        first, last := Some(found[|found| - 1].time), Some(found[0].time);
      }
      SameMembers(found);
      SelectedAreLoaded(table, series, Window(None, None, false));
      forall full: seq<Key> | IsFullLoad(full, table, series, Window(None, None, false))
        ensures full == Reversed(found)
      {
        FullLoadIsUnique(full, Reversed(found));
      }
    }
  }

  function Keys(records: seq<Record>): (keys: seq<Key>)
    ensures |keys| == |records| && forall i :: 0 <= i < |records| ==> keys[i] == records[i].key
  {
    if records == [] then [] else Keys(records[..|records| - 1]) + [records[|records| - 1].key]
  }

  lemma Suffix(full: seq<Key>, from_: nat)
    requires from_ <= |full|
    ensures forall k :: k in full[from_..] ==> k in full
  {
  }

  lemma SameMembers<T(!new)>(xs: seq<T>)
    ensures forall x :: x in Reversed(xs) <==> x in xs
  {
    forall x | x in xs ensures x in Reversed(xs) {
      var i :| 0 <= i < |xs| && xs[i] == x;
      assert Reversed(xs)[|xs| - 1 - i] == x;
    }
  }
}
