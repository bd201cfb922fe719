/** The durable paper ledger: orders keyed by intent, positions and decisions, one schema per market, written by
    all-or-nothing transactions. */
module PaperLedger {
  import opened Common

  datatype Market = Nse | Forex | Crypto

  datatype OrderRow = OrderRow(orderId: string, symbol: string, side: string, status: string, payload: string,
                               createdAt: int)

  datatype PositionRow = PositionRow(symbol: string, side: string, quantity: real, payload: string, updatedAt: int)

  datatype DecisionRow = DecisionRow(
    signalId: Option<string>, symbol: string, action: string, rejection: Option<string>, payload: string,
    createdAt: int)

  datatype Tables = Tables(orders: map<string, OrderRow>, positions: map<string, PositionRow>,
                           decisions: map<string, DecisionRow>)

  datatype Call =
    | Fill(intent: string, positionId: string, order: OrderRow, position: PositionRow)
    | Close(intent: string, positionId: string, decisionId: string, order: OrderRow, positionPayload: string,
            decisionPayload: string, at: int)
    | SaveOrder(intent: string, order: OrderRow)
    | SavePosition(positionId: string, position: PositionRow)
    | SaveDecision(decisionId: string, decision: DecisionRow)

  datatype Answer = Written | Duplicate | PositionNotFound

  // ---- The statements of a transaction ----

  /** INSERT ... ON CONFLICT DO UPDATE: the symbol of an existing position stays. */
  function UpsertPosition(positions: map<string, PositionRow>, id: string, row: PositionRow): map<string, PositionRow> {
    if id in positions then positions[id := row.(symbol := positions[id].symbol)] else positions[id := row]
  }

  /** An existing order only takes the new status and payload. */
  function UpsertOrder(orders: map<string, OrderRow>, intent: string, row: OrderRow): map<string, OrderRow> {
    if intent in orders then orders[intent := orders[intent].(status := row.status, payload := row.payload)]
    else orders[intent := row]
  }

  /** An existing decision only takes the new action, rejection reason and payload. */
  function UpsertDecision(decisions: map<string, DecisionRow>, id: string, row: DecisionRow): map<string, DecisionRow> {
    if id in decisions
    then decisions[id := decisions[id].(action := row.action, rejection := row.rejection, payload := row.payload)]
    else decisions[id := row]
  }

  function CloseDecision(decisions: map<string, DecisionRow>, id: string, payload: string): map<string, DecisionRow> {
    if id in decisions then decisions[id := decisions[id].(rejection := None, payload := payload)] else decisions
  }

  const FILLED := "SIMULATED_FILLED"

  function AnswerTo(t: Tables, c: Call): Answer {
    match c
    case Fill(intent, _, _, _) => if intent in t.orders then Duplicate else Written
    case Close(intent, positionId, _, _, _, _, _) =>
      if intent in t.orders then Duplicate else if positionId !in t.positions then PositionNotFound else Written
    case _ => Written
  }

  /** What a call leaves behind once it is answered: all of its writes, or none. */
  function After(t: Tables, c: Call): Tables {
    if !AnswerTo(t, c).Written? then t
    else
      match c
      case Fill(intent, positionId, order, position) =>
        Tables(t.orders[intent := order.(status := FILLED)], UpsertPosition(t.positions, positionId, position),
               t.decisions)
      case Close(intent, positionId, decisionId, order, positionPayload, decisionPayload, at) =>
        Tables(t.orders[intent := order.(status := FILLED)],
               t.positions[positionId := t.positions[positionId].(quantity := 0.0, payload := positionPayload,
                                                                  updatedAt := at)],
               CloseDecision(t.decisions, decisionId, decisionPayload))
      case SaveOrder(intent, order) => t.(orders := UpsertOrder(t.orders, intent, order))
      case SavePosition(positionId, position) => t.(positions := UpsertPosition(t.positions, positionId, position))
      case SaveDecision(decisionId, decision) => t.(decisions := UpsertDecision(t.decisions, decisionId, decision))
  }

  function Run(t: Tables, calls: seq<Call>): Tables {
    if calls == [] then t else After(Run(t, calls[..|calls| - 1]), calls[|calls| - 1])
  }

  // ---- Guarantees of one call ----

  predicate Once(c: Call) {
    c.Fill? || c.Close?
  }

  /** Every order of `t` is still there, unchanged. */
  ghost predicate KeepsOrders(t: Tables, now: Tables) {
    forall id :: id in t.orders ==> id in now.orders && now.orders[id] == t.orders[id]
  }

  /** Every position but this one is still there, unchanged. */
  ghost predicate KeepsPositionsBut(t: Tables, now: Tables, positionId: string) {
    forall id :: id in t.positions && id != positionId ==> id in now.positions && now.positions[id] == t.positions[id]
  }

  ghost predicate IsFlat(t: Tables, positionId: string) {
    positionId in t.positions && t.positions[positionId].quantity == 0.0
  }

  /** The order as a fill or a close files it. */
  predicate FiledAs(row: OrderRow, given: OrderRow) {
    row == OrderRow(given.orderId, given.symbol, given.side, "SIMULATED_FILLED", given.payload, given.createdAt)
  }

  /** A close is atomic: its order is filed, its position flat and its decision, when on file, without a rejection
      reason, all three together and nothing else touched; or every table is as it was. */
  lemma CloseIsAtomic(t: Tables, c: Call)
    requires c.Close?
    ensures AnswerTo(t, c).Written? <==> c.intent !in t.orders && c.positionId in t.positions
    ensures var now := After(t, c);
      if AnswerTo(t, c).Written? then
        && now.orders.Keys == t.orders.Keys + {c.intent} && KeepsOrders(t, now)
        && FiledAs(now.orders[c.intent], c.order)
        && IsFlat(now, c.positionId) && KeepsPositionsBut(t, now, c.positionId)
        && now.positions.Keys == t.positions.Keys && ClosedAs(now.positions[c.positionId], t.positions[c.positionId], c)
        && now.decisions.Keys == t.decisions.Keys && KeepsDecisionsBut(t, now, c.decisionId)
        && (c.decisionId in now.decisions ==>
              now.decisions[c.decisionId].rejection.None?
                && ResolvedAs(now.decisions[c.decisionId], t.decisions[c.decisionId], c.decisionPayload))
      else now == t
  {
  }

  /** The flat position keeps its symbol and side. */
  predicate ClosedAs(now: PositionRow, was: PositionRow, c: Call)
    requires c.Close?
  {
    now.symbol == was.symbol && now.side == was.side && now.payload == c.positionPayload && now.updatedAt == c.at
  }

  /** The decision keeps everything but its rejection reason and payload. */
  predicate ResolvedAs(now: DecisionRow, was: DecisionRow, payload: string) {
    && now.signalId == was.signalId && now.symbol == was.symbol && now.action == was.action
    && now.createdAt == was.createdAt && now.payload == payload
  }

  ghost predicate KeepsDecisionsBut(t: Tables, now: Tables, decisionId: string) {
    forall id :: id in t.decisions && id != decisionId ==> id in now.decisions && now.decisions[id] == t.decisions[id]
  }

  /** A position as it is saved: as given, but with the symbol it had on file. */
  ghost predicate SavedAs(t: Tables, now: Tables, positionId: string, given: PositionRow) {
    && now.positions.Keys == t.positions.Keys + {positionId} && KeepsPositionsBut(t, now, positionId)
    && var row := now.positions[positionId];
      && row.side == given.side && row.quantity == given.quantity && row.payload == given.payload
      && row.updatedAt == given.updatedAt
      && row.symbol == (if positionId in t.positions then t.positions[positionId].symbol else given.symbol)
  }

  /** A fill is atomic: order and position are filed together and nothing else is touched, or everything is as it
      was. */
  lemma FillIsAtomic(t: Tables, c: Call)
    requires c.Fill?
    ensures AnswerTo(t, c).Written? <==> c.intent !in t.orders
    ensures var now := After(t, c);
      if AnswerTo(t, c).Written? then
        && now.orders.Keys == t.orders.Keys + {c.intent} && KeepsOrders(t, now)
        && FiledAs(now.orders[c.intent], c.order)
        && SavedAs(t, now, c.positionId, c.position) && now.decisions == t.decisions
      else now == t
  {
  }

  /** A saved order is filed as given, or gives the one on file its status and payload. */
  lemma OrderIsSaved(t: Tables, c: Call)
    requires c.SaveOrder?
    ensures var now := After(t, c);
      && now.positions == t.positions && now.decisions == t.decisions && now.orders.Keys == t.orders.Keys + {c.intent}
      && (forall id :: id in t.orders && id != c.intent ==> now.orders[id] == t.orders[id])
      && var row := now.orders[c.intent];
        && row.status == c.order.status && row.payload == c.order.payload
        && Identity(row) == (if c.intent in t.orders then Identity(t.orders[c.intent]) else Identity(c.order))
  {
  }

  /** A saved position is the only thing it touches. */
  lemma PositionIsSaved(t: Tables, c: Call)
    requires c.SavePosition?
    ensures var now := After(t, c);
      now.orders == t.orders && now.decisions == t.decisions && SavedAs(t, now, c.positionId, c.position)
  {
  }

  /** A saved decision is filed as given, or gives the one on file its action, rejection reason and payload. */
  lemma DecisionIsSaved(t: Tables, c: Call)
    requires c.SaveDecision?
    ensures var now := After(t, c);
      && now.orders == t.orders && now.positions == t.positions
      && now.decisions.Keys == t.decisions.Keys + {c.decisionId} && KeepsDecisionsBut(t, now, c.decisionId)
      && var row := now.decisions[c.decisionId];
        && row.action == c.decision.action && row.rejection == c.decision.rejection && row.payload == c.decision.payload
        && var first := if c.decisionId in t.decisions then t.decisions[c.decisionId] else c.decision;
          row.signalId == first.signalId && row.symbol == first.symbol && row.createdAt == first.createdAt
  {
  }

  /** The other calls touch one table: an order on file keeps its identity, a flat position not saved stays flat. */
  lemma SavesTouchOneTable(t: Tables, c: Call, id: string)
    requires !Once(c)
    ensures var now := After(t, c);
      && (id in t.orders ==> id in now.orders && Identity(now.orders[id]) == Identity(t.orders[id]))
      && (IsFlat(t, id) && !Sizes(c, id) ==> IsFlat(now, id))
  {
  }

  /** The identity of an order on file: everything but its status and payload. */
  function Identity(o: OrderRow): (string, string, string, int) {
    (o.orderId, o.symbol, o.side, o.createdAt)
  }

  /** Sets the quantity of a position. */
  predicate Sizes(c: Call, positionId: string) {
    (c.Fill? || c.SavePosition?) && c.positionId == positionId
  }

  /** No call takes an order off file or changes its identity, and a call that does not size a flat position, or does
      nothing, leaves it flat. */
  lemma OneCall(t: Tables, c: Call, id: string)
    ensures var now := After(t, c);
      && (id in t.orders ==> id in now.orders && Identity(now.orders[id]) == Identity(t.orders[id]))
      && (IsFlat(t, id) && (AnswerTo(t, c).Written? ==> !Sizes(c, id)) ==> IsFlat(now, id))
  {
    hide After, AnswerTo;
    if c.Close? {
      CloseIsAtomic(t, c);
    } else if c.Fill? {
      FillIsAtomic(t, c);
    } else {
      SavesAreWritten(t, c);
      SavesTouchOneTable(t, c, id);
    }
  }

  lemma SavesAreWritten(t: Tables, c: Call)
    requires !Once(c)
    ensures AnswerTo(t, c).Written?
  {
  }

  // ---- Runs ----

  lemma {:induction false} RunAppend(t: Tables, xs: seq<Call>, ys: seq<Call>)
    ensures Run(t, xs + ys) == Run(Run(t, xs), ys)
    decreases |ys|
  {
    hide After;
    if ys == [] {
      assert xs + ys == xs;
    } else {
      RunAppend(t, xs, ys[..|ys| - 1]);
      assert (xs + ys)[..|xs + ys| - 1] == xs + ys[..|ys| - 1];
    }
  }

  /** Whatever is called, in whatever order: an intent once on file stays on file, with the same order, symbol, side and
      creation time. */
  lemma {:induction false} IntentsAreImmutable(t: Tables, calls: seq<Call>, intent: string)
    requires intent in t.orders
    ensures intent in Run(t, calls).orders && Identity(Run(t, calls).orders[intent]) == Identity(t.orders[intent])
    decreases |calls|
  {
    if calls != [] {
      IntentsAreImmutable(t, calls[..|calls| - 1], intent);
      OneCall(Run(t, calls[..|calls| - 1]), calls[|calls| - 1], intent);
      hide After;
    }
  }

  /** The calls of a run that took effect, the fills and closes among them. */
  function Effective(t: Tables, calls: seq<Call>): seq<Call> {
    if calls == [] then []
    else
      var front, last := calls[..|calls| - 1], calls[|calls| - 1];
      Effective(t, front) + if AnswerTo(Run(t, front), last).Written? then [last] else []
  }

  ghost predicate IntentsDiffer(calls: seq<Call>) {
    forall i, j :: 0 <= i < j < |calls| && Once(calls[i]) && Once(calls[j]) ==> calls[i].intent != calls[j].intent
  }

  lemma {:induction false} WrittenOnFile(t: Tables, calls: seq<Call>)
    ensures forall c :: c in Effective(t, calls) && Once(c) ==>
      c.intent in Run(t, calls).orders && c.intent !in t.orders
    decreases |calls|
  {
    if calls != [] {
      var front, last := calls[..|calls| - 1], calls[|calls| - 1];
      WrittenOnFile(t, front);
      forall c | c in Effective(t, calls) && Once(c) ensures c.intent in Run(t, calls).orders && c.intent !in t.orders {
        if c in Effective(t, front) {
          IntentsAreImmutable(Run(t, front), [last], c.intent);
          assert [last][..0] == [];
        } else {
          NewIntent(t, front, c.intent);
        }
      }
    }
  }

  lemma NewIntent(t: Tables, calls: seq<Call>, intent: string)
    requires intent !in Run(t, calls).orders
    ensures intent !in t.orders
  {
    if intent in t.orders {
      IntentsAreImmutable(t, calls, intent);
    }
  }

  /** Exactly once: a run with any repetitions and failures ends in the tables of the run of its effective calls alone;
      in that run every call is written, and every intent is filled or closed once at most. */
  lemma {:induction false} ExactlyOnce(t: Tables, calls: seq<Call>)
    ensures Run(t, Effective(t, calls)) == Run(t, calls)
    ensures Effective(t, Effective(t, calls)) == Effective(t, calls)
    ensures IntentsDiffer(Effective(t, calls))
    decreases |calls|
  {
    if calls != [] {
      var front, last := calls[..|calls| - 1], calls[|calls| - 1];
      var kept := Effective(t, front);
      ExactlyOnce(t, front);
      assert front + [last] == calls;
      Extend(t, front, last);
      Extend(t, kept, last);
      WrittenOnFile(t, front);
      hide After, Run, Effective, AnswerTo;
      if AnswerTo(Run(t, front), last).Written? {
        StillDiffer(t, front, last);
      } else {
        assert kept + [] == kept;
      }
    }
  }

  lemma Extend(t: Tables, calls: seq<Call>, c: Call)
    ensures Run(t, calls + [c]) == After(Run(t, calls), c)
    ensures Effective(t, calls + [c]) == Effective(t, calls) + if AnswerTo(Run(t, calls), c).Written? then [c] else []
    ensures !AnswerTo(Run(t, calls), c).Written? ==> Run(t, calls + [c]) == Run(t, calls)
  {
    assert (calls + [c])[..|calls|] == calls;
  }

  lemma StillDiffer(t: Tables, calls: seq<Call>, c: Call)
    requires IntentsDiffer(Effective(t, calls)) && AnswerTo(Run(t, calls), c).Written?
    ensures IntentsDiffer(Effective(t, calls) + [c])
  {
    WrittenOnFile(t, calls);
    var kept := Effective(t, calls);
    assert forall i :: 0 <= i < |kept| ==> kept[i] in kept;
    hide After, Run, Effective;
  }

  /** Repeating a fill or close that is already on file is answered as a duplicate and changes nothing, however much
      happened in between. */
  lemma RetriesAreHarmless(t: Tables, c: Call, between: seq<Call>, again: Call)
    requires Once(c) && Once(again) && again.intent == c.intent && AnswerTo(t, c).Written?
    ensures var now := Run(After(t, c), between);
      AnswerTo(now, again).Duplicate? && After(now, again) == now
  {
    IntentsAreImmutable(After(t, c), between, c.intent);
  }

  // ---- Who wrote what ----

  predicate WritesOrder(c: Call, intent: string) {
    (c.Fill? || c.Close? || c.SaveOrder?) && c.intent == intent
  }

  function AboutOrder(intent: string): Call -> bool {
    (c: Call) => WritesOrder(c, intent)
  }

  /** The row of an order: its status and payload are those of the last call that wrote it, its identity is the one it
      was first filed with. */
  ghost predicate OrderFrom(t: Tables, writers: seq<Call>, now: Tables, intent: string) {
    if intent !in now.orders then writers == [] && intent !in t.orders
    else if writers == [] then intent in t.orders && now.orders[intent] == t.orders[intent]
    else
      var row, first, last := now.orders[intent], writers[0], writers[|writers| - 1];
      && WritesOrder(first, intent) && WritesOrder(last, intent)
      && row.payload == last.order.payload
      && row.status == (if last.SaveOrder? then last.order.status else "SIMULATED_FILLED")
      && Identity(row) == Identity(if intent in t.orders then t.orders[intent] else first.order)
  }

  lemma OrderAfter(t: Tables, before: Tables, writers: seq<Call>, c: Call, intent: string)
    requires OrderFrom(t, writers, before, intent) && AnswerTo(before, c).Written?
    ensures OrderFrom(t, writers + if WritesOrder(c, intent) then [c] else [], After(before, c), intent)
  {
    hide AnswerTo, After;
    match c {
      case Fill(_, _, _, _) => FillIsAtomic(before, c);
      case Close(_, _, _, _, _, _, _) => CloseIsAtomic(before, c);
      case SaveOrder(_, _) => OrderIsSaved(before, c);
      case SavePosition(_, _) => PositionIsSaved(before, c);
      case SaveDecision(_, _) => DecisionIsSaved(before, c);
    }
    hide SavedAs, ClosedAs, ResolvedAs, KeepsPositionsBut, KeepsDecisionsBut;
    assert writers + [] == writers;
  }

  /** Over any run: whether an order is on file, and each column of its row, follows from the calls about it that took
      effect. */
  lemma {:induction false} OrderHasItsWriters(t: Tables, calls: seq<Call>, intent: string)
    ensures OrderFrom(t, Filter(Effective(t, calls), AboutOrder(intent)), Run(t, calls), intent)
    decreases |calls|
  {
    if calls != [] {
      var front, last := calls[..|calls| - 1], calls[|calls| - 1];
      hide After, Run, Effective, AnswerTo, OrderFrom, Filter;
      assert front + [last] == calls;
      OrderHasItsWriters(t, front, intent);
      Extend(t, front, last);
      FilterOneMore(Effective(t, front), last, AboutOrder(intent));
      if AnswerTo(Run(t, front), last).Written? {
        OrderAfter(t, Run(t, front), Filter(Effective(t, front), AboutOrder(intent)), last, intent);
      } else {
        assert Effective(t, front) + [] == Effective(t, front);
      }
    }
  }

  predicate WritesPosition(c: Call, positionId: string) {
    (c.Fill? || c.Close? || c.SavePosition?) && c.positionId == positionId
  }

  function AboutPosition(positionId: string): Call -> bool {
    (c: Call) => WritesPosition(c, positionId)
  }

  /** The row of a position: its quantity, payload and time are those of the last call that wrote it, a close leaving
      none of the quantity; its symbol is the one it was first filed with. */
  ghost predicate PositionFrom(t: Tables, writers: seq<Call>, now: Tables, positionId: string) {
    if positionId !in now.positions then writers == [] && positionId !in t.positions
    else if writers == [] then positionId in t.positions && now.positions[positionId] == t.positions[positionId]
    else
      var row, first, last := now.positions[positionId], writers[0], writers[|writers| - 1];
      && WritesPosition(first, positionId) && WritesPosition(last, positionId)
      && (positionId in t.positions || !first.Close?)
      && row.symbol == (if positionId in t.positions then t.positions[positionId].symbol else first.position.symbol)
      && row.quantity == (if last.Close? then 0.0 else last.position.quantity)
      && row.payload == (if last.Close? then last.positionPayload else last.position.payload)
      && row.updatedAt == (if last.Close? then last.at else last.position.updatedAt)
      && (!last.Close? ==> row.side == last.position.side)
  }

  lemma PositionAfter(t: Tables, before: Tables, writers: seq<Call>, c: Call, positionId: string)
    requires PositionFrom(t, writers, before, positionId) && AnswerTo(before, c).Written?
    ensures PositionFrom(t, writers + if WritesPosition(c, positionId) then [c] else [], After(before, c), positionId)
  {
    hide AnswerTo, After;
    match c {
      case Fill(_, _, _, _) => FillIsAtomic(before, c);
      case Close(_, _, _, _, _, _, _) => CloseIsAtomic(before, c);
      case SaveOrder(_, _) => OrderIsSaved(before, c);
      case SavePosition(_, _) => PositionIsSaved(before, c);
      case SaveDecision(_, _) => DecisionIsSaved(before, c);
    }
    hide FiledAs, ResolvedAs, KeepsOrders, KeepsDecisionsBut;
    assert writers + [] == writers;
  }

  /** The same of positions. */
  lemma {:induction false} PositionHasItsWriters(t: Tables, calls: seq<Call>, positionId: string)
    ensures PositionFrom(t, Filter(Effective(t, calls), AboutPosition(positionId)), Run(t, calls), positionId)
    decreases |calls|
  {
    if calls != [] {
      var front, last := calls[..|calls| - 1], calls[|calls| - 1];
      hide After, Run, Effective, AnswerTo, PositionFrom, Filter;
      assert front + [last] == calls;
      PositionHasItsWriters(t, front, positionId);
      Extend(t, front, last);
      FilterOneMore(Effective(t, front), last, AboutPosition(positionId));
      if AnswerTo(Run(t, front), last).Written? {
        PositionAfter(t, Run(t, front), Filter(Effective(t, front), AboutPosition(positionId)), last, positionId);
      } else {
        assert Effective(t, front) + [] == Effective(t, front);
      }
    }
  }

  /** A flat position stays flat until a call that takes effect fills or saves it. */
  lemma {:induction false} FlatStaysFlat(t: Tables, calls: seq<Call>, positionId: string)
    requires IsFlat(t, positionId)
    requires forall c :: c in Effective(t, calls) ==> !Sizes(c, positionId)
    ensures IsFlat(Run(t, calls), positionId)
    decreases |calls|
  {
    if calls != [] {
      var front, last := calls[..|calls| - 1], calls[|calls| - 1];
      assert front + [last] == calls;
      Extend(t, front, last);
      FlatStaysFlat(t, front, positionId);
      OneCall(Run(t, front), last, positionId);
      hide *;
      assert AnswerTo(Run(t, front), last).Written? ==> last in Effective(t, calls);
    }
  }

  /** A closed position stays closed, however often the fills that are already on file are replayed, the one that opened
      it among them: only a new intent or a saved position can open it again. */
  lemma ClosedStaysClosed(t: Tables, c: Call, calls: seq<Call>)
    requires c.Close? && AnswerTo(t, c).Written?
    requires forall k :: k in calls && Sizes(k, c.positionId) ==> k.Fill? && k.intent in After(t, c).orders
    ensures IsFlat(Run(After(t, c), calls), c.positionId)
  {
    var closed := After(t, c);
    CloseIsAtomic(t, c);
    WrittenOnFile(closed, calls);
    EffectiveAreCalls(closed, calls);
    hide After, Run, Effective, AnswerTo, IsFlat;
    FlatStaysFlat(closed, calls, c.positionId);
  }

  lemma {:induction false} EffectiveAreCalls(t: Tables, calls: seq<Call>)
    ensures forall c :: c in Effective(t, calls) ==> c in calls
  {
    if calls != [] {
      EffectiveAreCalls(t, calls[..|calls| - 1]);
      assert calls == calls[..|calls| - 1] + [calls[|calls| - 1]];
      hide Run, AnswerTo;
    }
  }

  // ---- Markets ----

  datatype Sent = Sent(market: Market, call: Call)

  /** Calls of all markets, interleaved, against one database. */
  function RunAll(db: map<Market, Tables>, sent: seq<Sent>): map<Market, Tables> {
    if sent == [] then db
    else
      var before, last := RunAll(db, sent[..|sent| - 1]), sent[|sent| - 1];
      if last.market in before then before[last.market := After(before[last.market], last.call)] else before
  }

  function CallsOf(sent: seq<Sent>, m: Market): seq<Call> {
    if sent == [] then []
    else CallsOf(sent[..|sent| - 1], m) + if sent[|sent| - 1].market == m then [sent[|sent| - 1].call] else []
  }

  /** Each market's tables are what its own calls make of them, however the calls of other markets interleave. */
  lemma {:induction false} MarketsAreIsolated(db: map<Market, Tables>, sent: seq<Sent>, m: Market)
    requires m in db
    ensures m in RunAll(db, sent) && RunAll(db, sent)[m] == Run(db[m], CallsOf(sent, m))
    decreases |sent|
  {
    hide After;
    if sent != [] {
      var front := sent[..|sent| - 1];
      MarketsAreIsolated(db, front, m);
      var mine := CallsOf(front, m);
      assert (mine + [sent[|sent| - 1].call])[..|mine|] == mine && mine + [] == mine;
    }
  }

  // ---- The repository ----

  class Database {
    var schemas: map<Market, Tables>

    constructor ()
      ensures schemas == map[]
    {
      schemas := map[];
    }
  }

  /** A repository bound to one market. A transaction works on a copy of the market's tables and commits it at the end;
      leaving early leaves the database as it was. */
  class SchemaBoundTradingRepository {
    const db: Database
    const market: Market

    ghost predicate Valid()
      reads db
    {
      market in db.schemas
    }

    /** The schema is created if absent; an existing one is left as it is. */
    constructor (database: Database, m: Market)
      modifies database
      ensures db == database && market == m && Valid()
      ensures db.schemas == if m in old(database.schemas) then old(database.schemas)
        else old(database.schemas)[m := Tables(map[], map[], map[])]
    {
      db, market := database, m;
      new;
      if m !in db.schemas {
        db.schemas := db.schemas[m := Tables(map[], map[], map[])];
      }
    }

    method PersistPaperFill(intent: string, positionId: string, order: OrderRow, position: PositionRow)
      returns (written: bool)
      requires Valid()
      modifies db
      ensures Valid()
      ensures var c, t := Fill(intent, positionId, order, position), old(db.schemas)[market];
        (written <==> AnswerTo(t, c).Written?) && db.schemas == old(db.schemas)[market := After(t, c)]
    {
      var t := db.schemas[market];
      if intent in t.orders {
        assert db.schemas == db.schemas[market := t];
        return false;
      }
      t := t.(orders := t.orders[intent := order.(status := FILLED)]);
      t := t.(positions := UpsertPosition(t.positions, positionId, position));
      db.schemas := db.schemas[market := t];
      return true;
    }

    method PersistPaperClose(intent: string, positionId: string, decisionId: string, order: OrderRow,
                             positionPayload: string, decisionPayload: string, at: int)
      returns (written: Result<bool, string>)
      requires Valid()
      modifies db
      ensures Valid()
      ensures var c := Close(intent, positionId, decisionId, order, positionPayload, decisionPayload, at);
        var t := old(db.schemas)[market];
        && (written.Err? <==> AnswerTo(t, c).PositionNotFound?)
        && (written.Ok? ==> (written.value <==> AnswerTo(t, c).Written?))
        && db.schemas == old(db.schemas)[market := After(t, c)]
    {
      var t := db.schemas[market];
      assert db.schemas == db.schemas[market := t];
      if intent in t.orders {
        return Ok(false);
      }
      t := t.(orders := t.orders[intent := order.(status := FILLED)]);
      if positionId !in t.positions {
        return Err("PAPER_POSITION_NOT_FOUND");
      }
      var closed := t.positions[positionId].(quantity := 0.0, payload := positionPayload, updatedAt := at);
      t := t.(positions := t.positions[positionId := closed]);
      t := t.(decisions := CloseDecision(t.decisions, decisionId, decisionPayload));
      db.schemas := db.schemas[market := t];
      return Ok(true);
    }

    method PersistOrder(intent: string, order: OrderRow)
      requires Valid()
      modifies db
      ensures Valid()
      ensures db.schemas == old(db.schemas)[market := After(old(db.schemas)[market], SaveOrder(intent, order))]
    {
      var t := db.schemas[market];
      db.schemas := db.schemas[market := t.(orders := UpsertOrder(t.orders, intent, order))];
    }

    method PersistPosition(positionId: string, position: PositionRow)
      requires Valid()
      modifies db
      ensures Valid()
      ensures db.schemas == old(db.schemas)[market := After(old(db.schemas)[market],
                                                            SavePosition(positionId, position))]
    {
      var t := db.schemas[market];
      db.schemas := db.schemas[market := t.(positions := UpsertPosition(t.positions, positionId, position))];
    }

    method PersistDecision(decisionId: string, decision: DecisionRow)
      requires Valid()
      modifies db
      ensures Valid()
      ensures db.schemas == old(db.schemas)[market := After(old(db.schemas)[market],
                                                            SaveDecision(decisionId, decision))]
    {
      var t := db.schemas[market];
      db.schemas := db.schemas[market := t.(decisions := UpsertDecision(t.decisions, decisionId, decision))];
    }
  }

  /** Opens a market's repository. An engine that is not PostgreSQL is refused before anything is touched. */
  method Open(database: Database, m: Market, dialect: string)
    returns (result: Result<SchemaBoundTradingRepository, string>)
    modifies database
    ensures result.Err? <==> dialect != "postgresql"
    ensures result.Err? ==> database.schemas == old(database.schemas)
    ensures result.Ok? ==>
      && result.value.db == database && result.value.market == m && result.value.Valid()
      && database.schemas == if m in old(database.schemas) then old(database.schemas)
           else old(database.schemas)[m := Tables(map[], map[], map[])]
  {
    if dialect != "postgresql" {
      return Err("Market trading persistence requires PostgreSQL");
    }
    var repository := new SchemaBoundTradingRepository(database, m);
    return Ok(repository);
  }
}
