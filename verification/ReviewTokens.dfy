/** Splitting the tokens of one review call over candidates, strategies and timeframes. */
module ReviewTokens {
  import opened VerdictCache
  import opened SignalValidation

  ghost function MapSum(m: map<string, nat>): nat {
    if m == map[] then 0
    else
      var k :| k in m;
      m[k] + MapSum(m - {k})
  }

  lemma {:induction false} MapSumAt(m: map<string, nat>, k: string)
    requires k in m
    ensures MapSum(m) == m[k] + MapSum(m - {k})
    decreases |m|
  {
    var j :| j in m && MapSum(m) == m[j] + MapSum(m - {j});
    if j != k {
      MapSumAt(m - {j}, k);
      MapSumAt(m - {k}, j);
      assert (m - {j}) - {k} == (m - {k}) - {j};
    }
  }

  function Held(m: map<string, nat>, k: string): nat {
    if k in m then m[k] else 0
  }

  lemma MapSumUpdate(m: map<string, nat>, k: string, v: nat)
    ensures MapSum(m[k := v]) == MapSum(m) - Held(m, k) + v
  {
    MapSumAt(m[k := v], k);
    assert m[k := v] - {k} == m - {k};
    if k in m {
      MapSumAt(m, k);
    } else {
      assert m - {k} == m;
    }
  }

  /** What the first `i` candidates receive together. */
  function Upto(share: nat, remainder: nat, i: nat): nat {
    share * i + if i < remainder then i else remainder
  }

  lemma UptoSteps(share: nat, remainder: nat, n: nat)
    ensures Upto(share, remainder, 0) == 0
    ensures Upto(share, remainder, n + 1) == Upto(share, remainder, n) + share + if n < remainder then 1 else 0
  {
    assert share * (n + 1) == share * n + share;
  }

  lemma AllIsGiven(total: nat, n: nat)
    requires n > 0
    ensures Upto(total / n, total % n, n) == total
  {
  }

  lemma OneMore(misses: seq<Signal>, i: nat)
    requires i < |misses|
    ensures Ids(misses[..i + 1]) == Ids(misses[..i]) + {misses[i].id}
    ensures DistinctIds(misses[..i + 1]) <==> DistinctIds(misses[..i]) && misses[i].id !in Ids(misses[..i])
  {
    var so, now := misses[..i], misses[..i + 1];
    assert now == so + [misses[i]];
    if misses[i].id in Ids(so) {
      var k :| 0 <= k < i && so[k].id == misses[i].id;
      assert now[k].id == now[i].id;
    }
  }

  /** What the candidates together received under their identifiers, `given` being what was handed out. */
  ghost predicate Received(byCandidate: map<string, nat>, misses: seq<Signal>, share: nat, given: nat) {
    && byCandidate.Keys == Ids(misses) && MapSum(byCandidate) <= given
    && (forall id :: id in byCandidate ==> share <= byCandidate[id] <= share + 1)
    && (DistinctIds(misses) ==> MapSum(byCandidate) == given)
    && (share > 0 && MapSum(byCandidate) == given ==> DistinctIds(misses))
  }

  lemma OneMoreReceived(byCandidate: map<string, nat>, misses: seq<Signal>, i: nat, share: nat, given: nat,
                        portion: nat)
    requires i < |misses| && Received(byCandidate, misses[..i], share, given) && share <= portion <= share + 1
    ensures Received(byCandidate[misses[i].id := portion], misses[..i + 1], share, given + portion)
  {
    OneMore(misses, i);
    MapSumUpdate(byCandidate, misses[i].id, portion);
    hide MapSum, Ids, DistinctIds;
  }

  /** What a candidate receives by its place: the first `remainder` one token more than the others. */
  function Portion(i: nat, share: nat, remainder: nat): nat {
    if i < remainder then share + 1 else share
  }

  /** What the candidates with this property receive together. */
  function Given(misses: seq<Signal>, share: nat, remainder: nat, p: Signal -> bool): nat {
    if misses == [] then 0
    else
      var last := |misses| - 1;
      Given(misses[..last], share, remainder, p) + if p(misses[last]) then Portion(last, share, remainder) else 0
  }

  function OfStrategy(strategy: string): Signal -> bool {
    (s: Signal) => s.grain.strategy == strategy
  }

  function OfTimeframe(timeframe: string): Signal -> bool {
    (s: Signal) => s.grain.timeframe == timeframe
  }

  /** Under every strategy and every timeframe stands what its candidates receive together. */
  ghost predicate Split(byStrategy: map<string, nat>, byTimeframe: map<string, nat>, misses: seq<Signal>, share: nat,
                        remainder: nat) {
    && (forall k :: Held(byStrategy, k) == Given(misses, share, remainder, OfStrategy(k)))
    && (forall k :: Held(byTimeframe, k) == Given(misses, share, remainder, OfTimeframe(k)))
  }

  lemma GivenOneMore(misses: seq<Signal>, i: nat, share: nat, remainder: nat, p: Signal -> bool)
    requires i < |misses|
    ensures Given(misses[..i + 1], share, remainder, p) ==
      Given(misses[..i], share, remainder, p) + if p(misses[i]) then Portion(i, share, remainder) else 0
  {
    assert misses[..i + 1][..i] == misses[..i];
  }

  lemma OneMoreSplit(byStrategy: map<string, nat>, byTimeframe: map<string, nat>, misses: seq<Signal>, i: nat,
                     share: nat, remainder: nat)
    requires i < |misses| && Split(byStrategy, byTimeframe, misses[..i], share, remainder)
    ensures var s, portion := misses[i], Portion(i, share, remainder);
      Split(AddTo(byStrategy, s.grain.strategy, portion), AddTo(byTimeframe, s.grain.timeframe, portion),
            misses[..i + 1], share, remainder)
  {
    hide Given, Portion, MapSum;
    var s, portion := misses[i], Portion(i, share, remainder);
    var now, later := AddTo(byStrategy, s.grain.strategy, portion), AddTo(byTimeframe, s.grain.timeframe, portion);
    forall k ensures Held(now, k) == Given(misses[..i + 1], share, remainder, OfStrategy(k)) {
      GivenOneMore(misses, i, share, remainder, OfStrategy(k));
    }
    forall k ensures Held(later, k) == Given(misses[..i + 1], share, remainder, OfTimeframe(k)) {
      GivenOneMore(misses, i, share, remainder, OfTimeframe(k));
    }
  }

  method Distribute(misses: seq<Signal>, share: nat, remainder: nat)
    returns (byStrategy: map<string, nat>, byTimeframe: map<string, nat>, byCandidate: map<string, nat>)
    ensures MapSum(byStrategy) == MapSum(byTimeframe) == Upto(share, remainder, |misses|)
    ensures Split(byStrategy, byTimeframe, misses, share, remainder)
    ensures Received(byCandidate, misses, share, Upto(share, remainder, |misses|))
  {
    byStrategy, byTimeframe, byCandidate := map[], map[], map[];
    UptoSteps(share, remainder, 0);
    assert MapSum(map[]) == 0 && Received(map[], misses[..0], share, 0);
    assert Split(map[], map[], misses[..0], share, remainder);
    hide *;
    for i := 0 to |misses|
      invariant MapSum(byStrategy) == MapSum(byTimeframe) == Upto(share, remainder, i)
      invariant Split(byStrategy, byTimeframe, misses[..i], share, remainder)
      invariant Received(byCandidate, misses[..i], share, Upto(share, remainder, i))
    {
      var s := misses[i];
      var portion := if i < remainder then share + 1 else share;
      PortionIs(i, share, remainder);
      UptoSteps(share, remainder, i);
      OneMoreReceived(byCandidate, misses, i, share, Upto(share, remainder, i), portion);
      OneMoreSplit(byStrategy, byTimeframe, misses, i, share, remainder);
      byStrategy := AddTo(byStrategy, s.grain.strategy, portion);
      byTimeframe := AddTo(byTimeframe, s.grain.timeframe, portion);
      byCandidate := byCandidate[s.id := portion];
    }
    assert misses[..|misses|] == misses;
  }

  lemma PortionIs(i: nat, share: nat, remainder: nat)
    ensures Portion(i, share, remainder) == if i < remainder then share + 1 else share
  {
  }

  /** Everything spent is accounted for by strategy and by timeframe, each holding what its candidates receive, whatever
      the identifiers, and two identifiers differ by one token at most. The split by candidate never exceeds the total;
      with a token at least for everyone it adds up exactly when the identifiers differ. */
  method Allocate(misses: seq<Signal>, total: nat)
    returns (byStrategy: map<string, nat>, byTimeframe: map<string, nat>, byCandidate: map<string, nat>)
    ensures misses != [] ==> MapSum(byStrategy) == total && MapSum(byTimeframe) == total && MapSum(byCandidate) <= total
    ensures misses != [] ==> Split(byStrategy, byTimeframe, misses, total / |misses|, total % |misses|)
    ensures misses == [] ==> byStrategy == map[] && byTimeframe == map[] && byCandidate == map[]
    ensures total > 0 ==> byCandidate.Keys == Ids(misses)
    ensures forall a, b :: a in byCandidate && b in byCandidate ==> byCandidate[a] <= byCandidate[b] + 1
    ensures misses != [] && DistinctIds(misses) ==> MapSum(byCandidate) == total
    ensures misses != [] && total >= |misses| ==> (MapSum(byCandidate) == total <==> DistinctIds(misses))
  {
    if misses == [] || total == 0 {
      NothingGiven(misses);
      return map[], map[], map[];
    }
    AllIsGiven(total, |misses|);
    hide *;
    byStrategy, byTimeframe, byCandidate := Distribute(misses, total / |misses|, total % |misses|);
    ReceivedMeans(byCandidate, misses, total / |misses|, total);
    AtLeastOneEach(total, |misses|);
  }

  lemma {:induction false} NothingGivenTo(misses: seq<Signal>, p: Signal -> bool)
    ensures Given(misses, 0, 0, p) == 0
  {
    if misses != [] {
      NothingGivenTo(misses[..|misses| - 1], p);
    }
  }

  lemma NothingGiven(misses: seq<Signal>)
    ensures Split(map[], map[], misses, 0, 0)
  {
    forall k ensures Given(misses, 0, 0, OfStrategy(k)) == 0 == Given(misses, 0, 0, OfTimeframe(k)) {
      NothingGivenTo(misses, OfStrategy(k));
      NothingGivenTo(misses, OfTimeframe(k));
    }
    hide Given;
  }

  lemma AtLeastOneEach(total: nat, n: nat)
    requires n > 0
    ensures total >= n ==> total / n > 0
  {
  }

  lemma ReceivedMeans(byCandidate: map<string, nat>, misses: seq<Signal>, share: nat, given: nat)
    requires Received(byCandidate, misses, share, given)
    ensures byCandidate.Keys == Ids(misses) && MapSum(byCandidate) <= given
    ensures forall a, b :: a in byCandidate && b in byCandidate ==> byCandidate[a] <= byCandidate[b] + 1
    ensures DistinctIds(misses) ==> MapSum(byCandidate) == given
    ensures share > 0 ==> (MapSum(byCandidate) == given <==> DistinctIds(misses))
  {
    hide MapSum, DistinctIds, Ids;
  }

  function AddTo(m: map<string, nat>, k: string, v: nat): (r: map<string, nat>)
    ensures MapSum(r) == MapSum(m) + v
    ensures forall j :: Held(r, j) == Held(m, j) + if j == k then v else 0
  {
    MapSumUpdate(m, k, Held(m, k) + v);
    m[k := Held(m, k) + v]
  }
}
