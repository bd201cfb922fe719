/** The backtest engine: one long-only position, costs on both legs, a ledger of closed trades. */
module Engine {
  import opened Common
  import opened Drawdown
  import opened Stats

  datatype Bar = Bar(time: int, open: real, high: real, low: real, close: real, volume: real)

  datatype Signal = Buy | Sell | Hold

  datatype Side = BuySide | SellSide

  /** A strategy object: a state, and what `on_bar` answers from it, the row and the earlier bars. */
  datatype Strategy<!S> = Strategy(init: S, onBar: (S, Bar, seq<Bar>) -> (S, Signal))

  /** Either the flat commission and slippage, or a cost model of which nothing is known here. */
  datatype Costs =
    | Flat(commission: real, slippage: real)
    | Modelled(fill: (real, Side) -> real, charges: (real, Side) -> real)

  datatype Setup<!S> = Setup(initialCapital: real, costs: Costs, strategy: Strategy<S>)

  const LOOKBACK: nat := 20

  function FillPrice(costs: Costs, price: real, side: Side): real {
    match costs
    case Flat(_, slippage) => if side.BuySide? then price * (1.0 + slippage) else price * (1.0 - slippage)
    case Modelled(fill, _) => fill(price, side)
  }

  function Charge(costs: Costs, fillPrice: real, side: Side): real {
    match costs
    case Flat(commission, _) => fillPrice * commission
    case Modelled(_, charges) => charges(fillPrice, side)
  }

  /** A closed round trip by bar positions, with the fills and charges of both legs. */
  datatype RoundTrip = RoundTrip(
    entryAt: nat, exitAt: nat, entryPrice: real, exitPrice: real, entryCharge: real, exitCharge: real)

  function NetPnl(t: RoundTrip): real {
    t.exitPrice - t.entryPrice - (t.entryCharge + t.exitCharge)
  }

  /** The variables of the bar loop. */
  datatype Ledger<!S> = Ledger(
    strategyState: S, capital: real, position: int, entryAt: nat, entryPrice: real, entryCharge: real,
    trades: seq<RoundTrip>, equity: seq<real>)

  function Start<S>(e: Setup<S>): Ledger<S> {
    Ledger(e.strategy.init, e.initialCapital, 0, 0, 0.0, 0.0, [], [e.initialCapital])
  }

  function Enter<S>(costs: Costs, data: seq<Bar>, i: nat, l: Ledger<S>): Ledger<S>
    requires i < |data|
  {
    var price := FillPrice(costs, data[i].close, BuySide);
    var charge := Charge(costs, price, BuySide);
    l.(position := 1, entryAt := i, entryPrice := price, entryCharge := charge, capital := l.capital - charge)
  }

  function Exit<S>(costs: Costs, data: seq<Bar>, i: nat, l: Ledger<S>): Ledger<S>
    requires i < |data|
  {
    var price := FillPrice(costs, data[i].close, SellSide);
    var charge := Charge(costs, price, SellSide);
    l.(position := 0,
       capital := l.capital + (price - l.entryPrice - charge),
       trades := l.trades + [RoundTrip(l.entryAt, i, l.entryPrice, price, l.entryCharge, charge)])
  }

  function Mark<S>(data: seq<Bar>, i: nat, l: Ledger<S>): Ledger<S>
    requires i < |data|
  {
    l.(equity := l.equity + [if l.position == 1 then l.capital + (data[i].close - l.entryPrice) else l.capital])
  }

  function StepBar<S>(e: Setup<S>, data: seq<Bar>, i: nat, l: Ledger<S>): Ledger<S>
    requires i < |data|
  {
    var (state, signal) := e.strategy.onBar(l.strategyState, data[i], data[..i]);
    var heard := l.(strategyState := state);
    Mark(data, i, Act(e.costs, data, i, heard, signal))
  }

  /** What a signal does to the position. */
  function Act<S>(costs: Costs, data: seq<Bar>, i: nat, l: Ledger<S>, signal: Signal): Ledger<S>
    requires i < |data|
  {
    if signal.Buy? && l.position == 0 then Enter(costs, data, i, l)
    else if signal.Sell? && l.position == 1 then Exit(costs, data, i, l)
    else l
  }

  /** The loop variables before bar `k`. */
  function LoopState<S>(e: Setup<S>, data: seq<Bar>, k: nat): Ledger<S>
    requires k <= |data|
    decreases k
  {
    if k <= LOOKBACK then Start(e) else StepBar(e, data, k - 1, LoopState(e, data, k - 1))
  }

  /** The ledger after the last bar, an open position closed at the last close. */
  function Final<S>(e: Setup<S>, data: seq<Bar>): Ledger<S>
    requires data != []
  {
    var l := LoopState(e, data, |data|);
    if l.position == 1 then Exit(e.costs, data, |data| - 1, l) else l
  }

  function Pnls(trades: seq<RoundTrip>): (r: seq<real>)
    ensures |r| == |trades| && forall i :: 0 <= i < |r| ==> r[i] == NetPnl(trades[i])
  {
    seq(|trades|, i requires 0 <= i < |trades| => NetPnl(trades[i]))
  }

  lemma PnlsAppend(trades: seq<RoundTrip>, t: RoundTrip)
    ensures Sum(Pnls(trades + [t])) == Sum(Pnls(trades)) + NetPnl(t)
  {
    assert Pnls(trades + [t])[..|trades|] == Pnls(trades);
  }

  // ---- Conservation of money ----

  ghost predicate Balanced<S>(e: Setup<S>, l: Ledger<S>) {
    && (l.position == 0 || l.position == 1)
    && l.capital == e.initialCapital + Sum(Pnls(l.trades)) - (if l.position == 1 then l.entryCharge else 0.0)
  }

  /** Before every bar: cash is the initial capital plus the net result of the closed trades,
      less the entry charge of the open leg. */
  lemma {:induction false} LedgerConserved<S>(e: Setup<S>, data: seq<Bar>, k: nat)
    requires k <= |data|
    ensures Balanced(e, LoopState(e, data, k))
    decreases k
  {
    hide Balanced, StepBar, Start;
    if k > LOOKBACK {
      LedgerConserved(e, data, k - 1);
      BalancedStep(e, data, k - 1, LoopState(e, data, k - 1));
    } else {
      StartIsSound(e, k);
    }
  }

  lemma BalancedStep<S>(e: Setup<S>, data: seq<Bar>, i: nat, l: Ledger<S>)
    requires i < |data| && Balanced(e, l)
    ensures Balanced(e, StepBar(e, data, i, l))
  {
    hide FillPrice, Charge, Pnls, Sum;
    var (_, signal) := e.strategy.onBar(l.strategyState, data[i], data[..i]);
    if signal.Sell? && l.position == 1 {
      ExitBooks(e.costs, data, i, l);
    }
  }

  /** Bar by bar, a BUY while flat opens at this bar, a SELL while long closes the open leg at this bar as one more
      trade, and any other signal leaves position, trades and cash alone; every bar marks the account once, an open
      leg at the close. */
  lemma PositionFollowsSignals<S>(e: Setup<S>, data: seq<Bar>, i: nat)
    requires LOOKBACK <= i < |data|
    ensures var l, now := LoopState(e, data, i), LoopState(e, data, i + 1);
      var signal := e.strategy.onBar(l.strategyState, data[i], data[..i]).1;
      && (if signal.Buy? && l.position == 0 then
            now.position == 1 && now.entryAt == i && now.trades == l.trades
              && now.capital == l.capital - now.entryCharge
          else if signal.Sell? && l.position == 1 then
            && now.position == 0 && |now.trades| == |l.trades| + 1 && l.trades <= now.trades
            && now.trades[|l.trades|].entryAt == l.entryAt && now.trades[|l.trades|].exitAt == i
          else now.position == l.position && now.trades == l.trades && now.capital == l.capital)
      && now.equity == l.equity + [now.capital + if now.position == 1 then data[i].close - now.entryPrice else 0.0]
  {
    assert LoopState(e, data, i + 1) == StepBar(e, data, i, LoopState(e, data, i));
    hide LoopState;
  }

  lemma ExitBooks<S>(costs: Costs, data: seq<Bar>, i: nat, l: Ledger<S>)
    requires i < |data|
    ensures Exit(costs, data, i, l).capital - l.capital ==
      Sum(Pnls(Exit(costs, data, i, l).trades)) - Sum(Pnls(l.trades)) + l.entryCharge
  {
    PnlsAppend(l.trades, Exit(costs, data, i, l).trades[|l.trades|]);
  }

  /** The reported result adds up: what the account gained is the sum of the reported net trade results,
      the forced close included. */
  lemma FinalCapitalIsInitialPlusTrades<S>(e: Setup<S>, data: seq<Bar>)
    requires data != []
    ensures Final(e, data).position == 0
    ensures Final(e, data).capital - e.initialCapital == Sum(Pnls(Final(e, data).trades))
  {
    LedgerConserved(e, data, |data|);
    var l := LoopState(e, data, |data|);
    if l.position == 1 {
      ExitBooks(e.costs, data, |data| - 1, l);
    }
  }

  lemma {:induction false} CurveLength<S>(e: Setup<S>, data: seq<Bar>, k: nat)
    requires k <= |data|
    ensures |LoopState(e, data, k).equity| == 1 + (if k > LOOKBACK then k - LOOKBACK else 0)
    decreases k
  {
    if k > LOOKBACK {
      CurveLength(e, data, k - 1);
    }
  }

  lemma {:induction false} LastMark<S>(e: Setup<S>, data: seq<Bar>, k: nat)
    requires LOOKBACK < k <= |data|
    ensures var l := LoopState(e, data, k);
      l.equity[|l.equity| - 1] == if l.position == 1 then l.capital + (data[k - 1].close - l.entryPrice) else l.capital
  {
  }

  /** The curve ends at the final capital exactly when no position is forced closed at the end,
      or closing it cost nothing against the last close. */
  lemma CurveEndsAtFinalCapital<S>(e: Setup<S>, data: seq<Bar>)
    requires data != []
    ensures var l := LoopState(e, data, |data|);
      var price := FillPrice(e.costs, data[|data| - 1].close, SellSide);
      l.equity != [] &&
      (l.equity[|l.equity| - 1] == Final(e, data).capital <==>
        (l.position != 1 || data[|data| - 1].close - price + Charge(e.costs, price, SellSide) == 0.0))
  {
    CurveLength(e, data, |data|);
    if |data| > LOOKBACK {
      LastMark(e, data, |data|);
    }
  }

  // ---- Trades in time ----

  /** Round trips follow one another: each ends before the next begins, none begins before the lookback. */
  ghost predicate Sequential(trades: seq<RoundTrip>, end: nat) {
    && (forall i :: 0 <= i < |trades| ==> LOOKBACK <= trades[i].entryAt <= trades[i].exitAt < end)
    && (forall i :: 0 < i < |trades| ==> trades[i - 1].exitAt < trades[i].entryAt)
  }

  ghost predicate Ordered<S>(l: Ledger<S>, k: nat) {
    && Sequential(l.trades, k)
    && (l.position == 1 ==> LOOKBACK <= l.entryAt < k)
    && (l.position == 1 && l.trades != [] ==> l.trades[|l.trades| - 1].exitAt < l.entryAt)
  }

  lemma {:induction false} TradesOrdered<S>(e: Setup<S>, data: seq<Bar>, k: nat)
    requires k <= |data|
    ensures Ordered(LoopState(e, data, k), k)
    decreases k
  {
    hide Ordered, StepBar, Start;
    if k > LOOKBACK {
      TradesOrdered(e, data, k - 1);
      OrderedStep(e, data, k - 1, LoopState(e, data, k - 1));
    } else {
      StartIsSound(e, k);
    }
  }

  lemma StartIsSound<S>(e: Setup<S>, k: nat)
    ensures Ordered(Start(e), k) && Balanced(e, Start(e))
  {
  }

  lemma OrderedStep<S>(e: Setup<S>, data: seq<Bar>, i: nat, l: Ledger<S>)
    requires LOOKBACK <= i < |data| && Ordered(l, i)
    ensures Ordered(StepBar(e, data, i, l), i + 1)
  {
    hide FillPrice, Charge, Sequential;
    SequentialLonger(l.trades, i);
    var next := StepBar(e, data, i, l);
    if next.trades != l.trades {
      SequentialAppend(l.trades, next.trades[|l.trades|], i + 1);
    } else {
      LastTradeIsOver(l.trades, i);
    }
  }

  lemma SequentialLonger(trades: seq<RoundTrip>, end: nat)
    requires Sequential(trades, end)
    ensures Sequential(trades, end + 1)
  {
  }

  lemma LastTradeIsOver(trades: seq<RoundTrip>, end: nat)
    requires Sequential(trades, end)
    ensures trades != [] ==> trades[|trades| - 1].exitAt < end
  {
  }

  lemma SequentialAppend(trades: seq<RoundTrip>, t: RoundTrip, end: nat)
    requires Sequential(trades, end) && LOOKBACK <= t.entryAt <= t.exitAt < end
    requires trades != [] ==> trades[|trades| - 1].exitAt < t.entryAt
    ensures Sequential(trades + [t], end)
  {
  }

  /** No two trades of a report overlap, the forced close included. */
  lemma TradesDoNotOverlap<S>(e: Setup<S>, data: seq<Bar>)
    requires data != []
    ensures Sequential(Final(e, data).trades, |data|)
    ensures forall i, j :: 0 <= i < j < |Final(e, data).trades| ==>
      Final(e, data).trades[i].exitAt < Final(e, data).trades[j].entryAt
  {
    TradesOrdered(e, data, |data|);
    EntriesIncrease(Final(e, data).trades, |data|);
  }

  lemma EntriesIncrease(trades: seq<RoundTrip>, end: nat)
    requires Sequential(trades, end)
    ensures forall i, j :: 0 <= i < j < |trades| ==> trades[i].exitAt < trades[j].entryAt
  {
    forall i, j | 0 <= i < j < |trades| ensures trades[i].exitAt < trades[j].entryAt {
      LaterEntry(trades, end, i, j);
    }
    hide Sequential;
  }

  lemma {:induction false} LaterEntry(trades: seq<RoundTrip>, end: nat, i: nat, j: nat)
    requires Sequential(trades, end) && i < j < |trades|
    ensures trades[i].exitAt < trades[j].entryAt
    decreases j
  {
    if i < j - 1 {
      LaterEntry(trades, end, i, j - 1);
    }
  }

  // ---- No look-ahead ----

  /** Whatever follows bar `k` cannot have changed the loop variables before it. */
  lemma {:induction false} FutureIsInvisible<S>(e: Setup<S>, data: seq<Bar>, other: seq<Bar>, k: nat)
    requires k <= |data| && k <= |other| && data[..k] == other[..k]
    ensures LoopState(e, data, k) == LoopState(e, other, k)
    decreases k
  {
    if k > LOOKBACK {
      assert data[..k - 1] == data[..k][..k - 1];
      assert other[..k - 1] == other[..k][..k - 1];
      assert data[k - 1] == data[..k][k - 1] == other[..k][k - 1] == other[k - 1];
      FutureIsInvisible(e, data, other, k - 1);
      StepSeesOnlyThePast(e, data, other, k - 1, LoopState(e, data, k - 1));
    }
  }

  lemma StepSeesOnlyThePast<S>(e: Setup<S>, data: seq<Bar>, other: seq<Bar>, i: nat, l: Ledger<S>)
    requires i < |data| && i < |other| && data[..i] == other[..i] && data[i] == other[i]
    ensures StepBar(e, data, i, l) == StepBar(e, other, i, l)
  {
  }

  lemma {:induction false} TradesOnlyGrow<S>(e: Setup<S>, data: seq<Bar>, k: nat, m: nat)
    requires k <= m <= |data|
    ensures LoopState(e, data, k).trades <= LoopState(e, data, m).trades
    ensures LoopState(e, data, k).equity <= LoopState(e, data, m).equity
    decreases m
  {
    if k < m {
      TradesOnlyGrow(e, data, k, m - 1);
    }
  }

  /** For any strategy: the state before bar `k` is the one a run on the first `k` bars reaches, and the trades it
      closed by signal begin the trade list of the full run. */
  lemma NoLookAhead<S>(e: Setup<S>, data: seq<Bar>, k: nat)
    requires 0 < k <= |data|
    ensures LoopState(e, data[..k], k) == LoopState(e, data, k)
    ensures LoopState(e, data[..k], k).trades <= Final(e, data).trades
    ensures LoopState(e, data[..k], k).equity <= Final(e, data).equity
  {
    assert data[..k][..k] == data[..k];
    FutureIsInvisible(e, data[..k], data, k);
    TradesOnlyGrow(e, data, k, |data|);
  }

  /** A leg at this close: flat slippage makes a buyer pay more and a seller receive less, and the commission is a share
      of the fill; a cost model is asked for the fill and the charges of that side. */
  ghost predicate LegAsPriced(costs: Costs, close: real, side: Side, price: real, charge: real) {
    match costs
    case Flat(commission, slippage) =>
      && price == close + (if side.BuySide? then close * slippage else -(close * slippage))
      && charge == commission * price
    case Modelled(fill, charges) => price == fill(close, side) && charge == charges(price, side)
  }

  /** Each round trip carries the fills and charges of the closes it was entered and left at. */
  ghost predicate Filled<S>(e: Setup<S>, data: seq<Bar>, l: Ledger<S>) {
    && (forall i :: 0 <= i < |l.trades| ==>
          var t := l.trades[i];
          && t.entryAt < |data| && t.exitAt < |data|
          && LegAsPriced(e.costs, data[t.entryAt].close, BuySide, t.entryPrice, t.entryCharge)
          && LegAsPriced(e.costs, data[t.exitAt].close, SellSide, t.exitPrice, t.exitCharge))
    && (l.position == 1 ==>
          && l.entryAt < |data|
          && LegAsPriced(e.costs, data[l.entryAt].close, BuySide, l.entryPrice, l.entryCharge))
  }

  lemma PricesAreLegs(costs: Costs, close: real, side: Side)
    ensures LegAsPriced(costs, close, side, FillPrice(costs, close, side),
                        Charge(costs, FillPrice(costs, close, side), side))
  {
  }

  /** Costs that can only cost: a model that fills at the close or worse and charges nothing below zero; or flat rates
      of at least zero, on closes of at least zero, that do not both exceed the price so far that a sale at a negative
      fill earns more by its commission than the close is worth. */
  ghost predicate OnlyCost(costs: Costs, data: seq<Bar>) {
    match costs
    case Flat(commission, slippage) =>
      && commission >= 0.0 && slippage >= 0.0 && (1.0 - slippage) * (1.0 - commission) <= 1.0
      && forall i :: 0 <= i < |data| ==> data[i].close >= 0.0
    case Modelled(fill, charges) =>
      && (forall price :: fill(price, BuySide) >= price >= fill(price, SellSide))
      && (forall price, side :: charges(price, side) >= 0.0)
  }

  /** Then no trade of a report nets more than its close-to-close move, the one closed after the last bar included. */
  lemma CostsNeverHelp<S>(e: Setup<S>, data: seq<Bar>, i: nat)
    requires data != [] && i < |Final(e, data).trades| && OnlyCost(e.costs, data)
    ensures var t := Final(e, data).trades[i];
      t.entryAt <= t.exitAt < |data| && NetPnl(t) <= data[t.exitAt].close - data[t.entryAt].close
  {
    hide Final;
    TradesDoNotOverlap(e, data);
    FillsAreTheirs(e, data);
    var t := Final(e, data).trades[i];
    var bought, sold := data[t.entryAt].close, data[t.exitAt].close;
    match e.costs {
      case Flat(commission, slippage) =>
        FlatLegsCost(commission, slippage, bought, sold);
      case Modelled(_, _) =>
    }
  }

  lemma FlatLegsCost(commission: real, slippage: real, bought: real, sold: real)
    requires commission >= 0.0 && slippage >= 0.0 && (1.0 - slippage) * (1.0 - commission) <= 1.0
    requires bought >= 0.0 && sold >= 0.0
    ensures var buy, sell := bought + bought * slippage, sold - sold * slippage;
      sell - buy - (commission * buy + commission * sell) <= sold - bought
  {
    var buy, sell := bought + bought * slippage, sold - sold * slippage;
    assert sell - commission * sell <= sold by {
      var share := (1.0 - slippage) * (1.0 - commission);
      assert sell - commission * sell == sold * share;
      NoLess(sold, share, 1.0);
      assert sold * 1.0 == sold;
    }
    assert buy >= bought && commission * buy >= 0.0 by {
      NoLess(bought, 0.0, slippage);
      assert bought * 0.0 == 0.0;
      NoLess(commission, 0.0, buy);
      assert commission * 0.0 == 0.0;
    }
  }

  lemma NoLess(x: real, y: real, z: real)
    requires x >= 0.0 && y <= z
    ensures x * y <= x * z
  {
  }

  /** So do the trades and the open leg before every bar, and the trades of the report. */
  lemma FillsAreTheirs<S>(e: Setup<S>, data: seq<Bar>)
    ensures forall k: nat :: k <= |data| ==> Filled(e, data, LoopState(e, data, k))
    ensures data != [] ==> Filled(e, data, Final(e, data))
  {
    hide LoopState, Filled, Exit;
    forall k: nat | k <= |data| ensures Filled(e, data, LoopState(e, data, k)) {
      LoopIsFilled(e, data, k);
    }
    if data != [] && LoopState(e, data, |data|).position == 1 {
      ExitIsFilled(e, data, |data| - 1, LoopState(e, data, |data|));
    }
  }

  lemma {:induction false} LoopIsFilled<S>(e: Setup<S>, data: seq<Bar>, k: nat)
    requires k <= |data|
    ensures Filled(e, data, LoopState(e, data, k))
    decreases k
  {
    if k > LOOKBACK {
      LoopIsFilled(e, data, k - 1);
      PricesAreLegs(e.costs, data[k - 1].close, BuySide);
      PricesAreLegs(e.costs, data[k - 1].close, SellSide);
      hide FillPrice, Charge, LegAsPriced;
    }
  }

  lemma ExitIsFilled<S>(e: Setup<S>, data: seq<Bar>, i: nat, l: Ledger<S>)
    requires i < |data| && l.position == 1 && Filled(e, data, l)
    ensures Filled(e, data, Exit(e.costs, data, i, l))
  {
    hide FillPrice, Charge, LegAsPriced;
    PricesAreLegs(e.costs, data[i].close, SellSide);
  }

  // ---- The program ----

  datatype PositionSide = Long | Short

  class Trade {
    const symbol: string
    const side: PositionSide
    const entryDate: int
    const entryPrice: real
    const quantity: int
    var exitDate: Option<int>
    var exitPrice: real
    var pnl: real
    var pnlPct: real

    constructor (entryDate: int, symbol: string, side: PositionSide, entryPrice: real)
      ensures this.entryDate == entryDate && this.symbol == symbol && this.side == side
      ensures this.entryPrice == entryPrice && quantity == 1 && exitDate == None && pnl == 0.0
    {
      this.entryDate, this.symbol, this.side, this.entryPrice := entryDate, symbol, side, entryPrice;
      quantity, exitDate, exitPrice, pnl, pnlPct := 1, None, 0.0, 0.0, 0.0;
    }

    /** Gross result of the fills, and its percentage of what was paid. */
    method Close(date: int, price: real)
      modifies this
      ensures exitDate == Some(date) && exitPrice == price
      ensures pnl == (if side.Long? then price - entryPrice else entryPrice - price) * quantity as real
      ensures var paid := entryPrice * quantity as real; paid != 0.0 ==> IsPercent(pnlPct, pnl, paid)
    {
      exitDate, exitPrice := Some(date), price;
      if side.Long? {
        pnl := (price - entryPrice) * quantity as real;
      } else {
        pnl := (entryPrice - price) * quantity as real;
      }
      pnlPct := Percent(pnl, entryPrice * quantity as real);
    }

    /** Restates the result net of both legs' charges. */
    method BookNetPnl(entryCharge: real, exitCharge: real)
      modifies `pnl, `pnlPct
      ensures pnl == old(pnl) - (entryCharge + exitCharge)
      ensures IsPercent(pnlPct, pnl, entryPrice * quantity as real)
    {
      pnl := pnl - (entryCharge + exitCharge);
      pnlPct := Percent(pnl, entryPrice * quantity as real);
    }

    /** This object reports the round trip `r`, its result net of charges. */
    ghost predicate Reports(r: RoundTrip, data: seq<Bar>, name: string)
      reads this
    {
      && r.entryAt < |data| && r.exitAt < |data|
      && symbol == name && side.Long? && quantity == 1
      && entryDate == data[r.entryAt].time && exitDate == Some(data[r.exitAt].time)
      && entryPrice == r.entryPrice && exitPrice == r.exitPrice
      && pnl == NetPnl(r)
    }
  }

  ghost predicate AllReport(trades: seq<Trade>, trips: seq<RoundTrip>, data: seq<Bar>, name: string)
    reads trades
  {
    |trades| == |trips| && forall i :: 0 <= i < |trades| ==> trades[i].Reports(trips[i], data, name)
  }

  /** The loop variables are those of the ledger. */
  ghost predicate Agree<S>(l: Ledger<S>, data: seq<Bar>, capital: real, position: int, entryPrice: real, entryDate: int,
                           entryCharge: real) {
    && capital == l.capital && position == l.position && entryPrice == l.entryPrice && entryCharge == l.entryCharge
    && (position == 1 ==> l.entryAt < |data| && entryDate == data[l.entryAt].time)
  }

  lemma OneMoreReport(trades: seq<Trade>, trips: seq<RoundTrip>, t: Trade, trip: RoundTrip, data: seq<Bar>,
                      name: string)
    requires AllReport(trades, trips, data, name) && t.Reports(trip, data, name)
    ensures AllReport(trades + [t], trips + [trip], data, name)
  {
  }

  datatype BacktestResult = BacktestResult(
    initialCapital: real, finalCapital: real, totalReturn: real, totalReturnPct: real,
    totalTrades: nat, winningTrades: nat, losingTrades: nat, winRate: real, avgWin: real, avgLoss: real,
    profitFactor: ProfitFactor, expectancy: real,
    maxDrawdown: real, maxDrawdownPct: real, trades: seq<Trade>, equityCurve: seq<real>)

  /** The figures of a result are those of these net results and this curve. */
  ghost predicate Summarises(r: BacktestResult, pnls: seq<real>, curve: seq<real>)
    requires curve != []
  {
    && r.totalReturn == r.finalCapital - r.initialCapital
    && (r.initialCapital != 0.0 ==> IsPercent(r.totalReturnPct, r.totalReturn, r.initialCapital))
    && r.totalTrades == |pnls| && r.winningTrades == Wins(pnls) && r.losingTrades == Losses(pnls)
    && IsMean(r.winRate, 100.0 * Wins(pnls) as real, |pnls|)
    && IsMean(r.avgWin, GrossProfit(pnls), Wins(pnls))
    && IsMean(r.avgLoss, -GrossLoss(pnls), Losses(pnls))
    && IsFactor(r.profitFactor, GrossProfit(pnls), GrossLoss(pnls))
    && IsMean(r.expectancy, Sum(pnls), |pnls|)
    && r.maxDrawdown == MaxDrop(curve) && r.maxDrawdownPct == DropPctOfTop(curve)
  }

  /** With no capital and no trade, the percentage return divides zero by zero. */
  datatype EngineError = NoData | MissingColumns | NoCapital

  const COLUMNS := {"Open", "High", "Low", "Close", "Volume"}

  class BacktestEngine {
    const initialCapital: real
    const costs: Costs

    constructor (initialCapital: real, costs: Costs)
      ensures this.initialCapital == initialCapital && this.costs == costs
    {
      this.initialCapital, this.costs := initialCapital, costs;
    }

    method CloseLeg(entryDate: int, entryPrice: real, entryCharge: real, bar: Bar, name: string,
                    ghost r: RoundTrip, ghost data: seq<Bar>)
      returns (trade: Trade, cash: real)
      requires r.entryAt < |data| && r.exitAt < |data| && bar == data[r.exitAt] && entryDate == data[r.entryAt].time
      requires r.entryPrice == entryPrice && r.entryCharge == entryCharge
      requires r.exitPrice == FillPrice(costs, bar.close, SellSide)
      requires r.exitCharge == Charge(costs, r.exitPrice, SellSide)
      ensures fresh(trade) && trade.Reports(r, data, name)
      ensures cash == r.exitPrice - entryPrice - r.exitCharge
    {
      var exitPrice := FillPrice(costs, bar.close, SellSide);
      var exitCharge := Charge(costs, exitPrice, SellSide);
      trade := new Trade(entryDate, name, Long, entryPrice);
      trade.Close(bar.time, exitPrice);
      cash := trade.pnl - exitCharge;
      trade.BookNetPnl(entryCharge, exitCharge);
    }

    /** Runs the strategy bar by bar. The result is the specified ledger's: capital, curve, net trades and their
        figures. Empty data, then a missing column, then neither capital nor trades, is an error. */
    method Run<S>(strategy: Strategy<S>, data: seq<Bar>, columns: set<string>, name: string)
      returns (result: Result<BacktestResult, EngineError>)
      ensures result == Err(NoData) <==> data == []
      ensures result == Err(MissingColumns) <==>
        data != [] && !({"Open", "High", "Low", "Close", "Volume"} <= columns)
      ensures result == Err(NoCapital) <==>
        data != [] && COLUMNS <= columns && initialCapital == 0.0
        && Final(Setup(initialCapital, costs, strategy), data).trades == []
      ensures result.Ok? ==>
        data != [] &&
        var l := Final(Setup(initialCapital, costs, strategy), data);
        var r := result.value;
        && r.initialCapital == initialCapital && r.finalCapital == l.capital && r.equityCurve == l.equity
        && AllReport(r.trades, l.trades, data, name)
        && r.equityCurve != [] && Summarises(r, Pnls(l.trades), l.equity)
        && r.totalReturn == Sum(Pnls(l.trades))
    {
      if data == [] {
        return Err(NoData);
      }
      if !(COLUMNS <= columns) {
        return Err(MissingColumns);
      }
      ghost var e := Setup(initialCapital, costs, strategy);
      var capital, trades, equity := RunBars(strategy, data, name);
      CurveLength(e, data, |data|);
      FinalCapitalIsInitialPlusTrades(e, data);
      ghost var l := Final(e, data);
      assert l.equity != [];
      hide *;
      result := CalculateMetrics(trades, equity, capital, l.trades, data, name);
    }

    method CalculateMetrics(trades: seq<Trade>, equity: seq<real>, finalCapital: real,
                            ghost trips: seq<RoundTrip>, ghost data: seq<Bar>, ghost name: string)
      returns (result: Result<BacktestResult, EngineError>)
      requires AllReport(trades, trips, data, name) && equity != []
      ensures result.Err? ==> result == Err(NoCapital)
      ensures result.Err? <==> initialCapital == 0.0 && trips == []
      ensures result.Ok? ==>
        var r := result.value;
        && r.initialCapital == initialCapital && r.finalCapital == finalCapital
        && r.trades == trades && r.equityCurve == equity
        && Summarises(r, Pnls(trips), equity) && r.totalReturn == finalCapital - initialCapital
    {
      if initialCapital == 0.0 && trades == [] {
        return Err(NoCapital);
      }
      var pnls := NetResults(trades, trips, data, name);
      hide AllReport;
      NothingCountedNothingSummed(pnls);
      assert |pnls| == 0 ==> Sum(pnls) == 0.0 && Wins(pnls) == 0;
      hide Sum, Wins, Losses, GrossProfit, GrossLoss, IsMean, IsPercent, IsFactor, MaxDrop, DropPctOfTop, Pnls;
      var returnPct := Percent(finalCapital - initialCapital, initialCapital);
      var winRate := AverageOrZero(100.0 * Wins(pnls) as real, |pnls|);
      var avgWin := AverageOrZero(GrossProfit(pnls), Wins(pnls));
      var avgLoss := AverageOrZero(-GrossLoss(pnls), Losses(pnls));
      var factor := FactorOf(GrossProfit(pnls), GrossLoss(pnls));
      var expectancy := AverageOrZero(Sum(pnls), |pnls|);
      var r := BacktestResult(initialCapital, finalCapital, finalCapital - initialCapital, returnPct,
                          |pnls|, Wins(pnls), Losses(pnls), winRate, avgWin, avgLoss, factor, expectancy,
                          MaxDrop(equity), DropPctOfTop(equity), trades, equity);
      result := Ok(r);
    }

    /** The bar loop and the forced close at the end. */
    method RunBars<S>(strategy: Strategy<S>, data: seq<Bar>, name: string)
      returns (capital: real, trades: seq<Trade>, equity: seq<real>)
      requires data != []
      ensures var l := Final(Setup(initialCapital, costs, strategy), data);
        capital == l.capital && equity == l.equity && AllReport(trades, l.trades, data, name)
      ensures forall t :: t in trades ==> fresh(t)
    {
      ghost var e := Setup(initialCapital, costs, strategy);
      var position, entryPrice, entryDate, entryCharge;
      capital, trades, equity, position, entryPrice, entryDate, entryCharge := BarLoop(strategy, data, name);
      ghost var l := LoopState(e, data, |data|);
      hide LoopState, StepBar;
      if position == 1 {
        var last := |data| - 1;
        var trade, cash := CloseLeg(entryDate, entryPrice, entryCharge, data[last], name,
                                    LastTrip(costs, data, last, l), data);
        capital := capital + cash;
        trades := trades + [trade];
      }
    }

    /** The loop over the bars after the lookback; its variables end as the specified loop state. */
    method BarLoop<S>(strategy: Strategy<S>, data: seq<Bar>, name: string)
      returns (capital: real, trades: seq<Trade>, equity: seq<real>,
               position: int, entryPrice: real, entryDate: int, entryCharge: real)
      ensures var l := LoopState(Setup(initialCapital, costs, strategy), data, |data|);
        && equity == l.equity && Agree(l, data, capital, position, entryPrice, entryDate, entryCharge)
        && AllReport(trades, l.trades, data, name)
      ensures forall t :: t in trades ==> fresh(t)
    {
      ghost var e := Setup(initialCapital, costs, strategy);
      var state := strategy.init;
      position, entryPrice, entryDate, entryCharge := 0, 0.0, 0, 0.0;
      capital, trades, equity := initialCapital, [], [initialCapital];
      LoopStarts(e, data, name);
      hide *;
      var i := if |data| < LOOKBACK then |data| else LOOKBACK;
      while i < |data|
        invariant i <= |data| && (i < |data| ==> LOOKBACK <= i)
        invariant InStep(e, data, i, name, state, capital, trades, equity, position, entryPrice, entryDate, entryCharge)
        invariant forall t :: t in trades ==> fresh(t)
      {
        var row := data[i];
        var (next, signal) := strategy.onBar(state, row, data[..i]);
        ghost var l := LoopState(e, data, i);
        ghost var heard := l.(strategyState := next);
        BarIsHeard(e, data, i, name, state, capital, trades, equity, position, entryPrice, entryDate, entryCharge, next,
                   signal);
        state := next;
        capital, trades, position, entryPrice, entryDate, entryCharge :=
          ActOn(signal, row, name, capital, trades, position, entryPrice, entryDate, entryCharge, heard, data, i);
        equity := equity + [if position == 1 then capital + (row.close - entryPrice) else capital];
        BarIsBooked(e, data, i, name, next, signal, capital, trades, equity, position, entryPrice, entryDate,
                    entryCharge);
        i := i + 1;
      }
      StepIsEnd(e, data, name, state, capital, trades, equity, position, entryPrice, entryDate, entryCharge);
    }

    /** The loop variables before bar `i` are those of the specified loop. */
    static ghost predicate InStep<S>(e: Setup<S>, data: seq<Bar>, i: nat, name: string, state: S, capital: real,
                                     trades: seq<Trade>, equity: seq<real>, position: int, entryPrice: real,
                                     entryDate: int, entryCharge: real)
      requires i <= |data|
      reads trades
    {
      var l := LoopState(e, data, i);
      && state == l.strategyState && equity == l.equity
      && Agree(l, data, capital, position, entryPrice, entryDate, entryCharge)
      && AllReport(trades, l.trades, data, name)
    }

    static lemma LoopStarts<S>(e: Setup<S>, data: seq<Bar>, name: string)
      ensures InStep(e, data, if |data| < LOOKBACK then |data| else LOOKBACK, name, e.strategy.init, e.initialCapital,
                     [], [e.initialCapital], 0, 0.0, 0, 0.0)
    {
    }

    static lemma StepIsEnd<S>(e: Setup<S>, data: seq<Bar>, name: string, state: S, capital: real, trades: seq<Trade>,
                              equity: seq<real>, position: int, entryPrice: real, entryDate: int, entryCharge: real)
      requires InStep(e, data, |data|, name, state, capital, trades, equity, position, entryPrice, entryDate,
                      entryCharge)
      ensures var l := LoopState(e, data, |data|);
        && equity == l.equity && Agree(l, data, capital, position, entryPrice, entryDate, entryCharge)
        && AllReport(trades, l.trades, data, name)
    {
    }

    /** Asking the strategy changes its state only. */
    static lemma BarIsHeard<S>(e: Setup<S>, data: seq<Bar>, i: nat, name: string, state: S, capital: real,
                               trades: seq<Trade>, equity: seq<real>, position: int, entryPrice: real, entryDate: int,
                               entryCharge: real, next: S, signal: Signal)
      requires i < |data| && (next, signal) == e.strategy.onBar(state, data[i], data[..i])
      requires InStep(e, data, i, name, state, capital, trades, equity, position, entryPrice, entryDate, entryCharge)
      ensures var l := LoopState(e, data, i);
        && (next, signal) == e.strategy.onBar(l.strategyState, data[i], data[..i])
        && equity == l.equity
        && Agree(l.(strategyState := next), data, capital, position, entryPrice, entryDate, entryCharge)
        && AllReport(trades, l.(strategyState := next).trades, data, name)
    {
      hide LoopState, AllReport;
    }

    /** Once a signal is acted on, marking the bar completes the step of the specified loop. */
    static lemma BarIsBooked<S>(e: Setup<S>, data: seq<Bar>, i: nat, name: string, next: S, signal: Signal,
                                capital: real, trades: seq<Trade>, equity: seq<real>, position: int, entryPrice: real,
                                entryDate: int, entryCharge: real)
      requires LOOKBACK <= i < |data|
      requires var l := LoopState(e, data, i);
        && (next, signal) == e.strategy.onBar(l.strategyState, data[i], data[..i])
        && equity == l.equity + [if position == 1 then capital + (data[i].close - entryPrice) else capital]
        && var acted := Act(e.costs, data, i, l.(strategyState := next), signal);
           && Agree(acted, data, capital, position, entryPrice, entryDate, entryCharge)
           && AllReport(trades, acted.trades, data, name)
      ensures InStep(e, data, i + 1, name, next, capital, trades, equity, position, entryPrice, entryDate, entryCharge)
    {
      NextState(e, data, i);
      hide LoopState, AllReport, FillPrice, Charge, Act;
    }

    static lemma NextState<S>(e: Setup<S>, data: seq<Bar>, i: nat)
      requires LOOKBACK <= i < |data|
      ensures LoopState(e, data, i + 1) == StepBar(e, data, i, LoopState(e, data, i))
    {
    }

    /** Acting on one signal: the loop variables follow the ledger. */
    method ActOn<S>(signal: Signal, row: Bar, name: string, capital0: real, trades0: seq<Trade>, position0: int,
                    entryPrice0: real, entryDate0: int, entryCharge0: real, ghost l: Ledger<S>, ghost data: seq<Bar>,
                    ghost i: nat)
      returns (capital: real, trades: seq<Trade>, position: int, entryPrice: real, entryDate: int, entryCharge: real)
      requires i < |data| && row == data[i]
      requires Agree(l, data, capital0, position0, entryPrice0, entryDate0, entryCharge0)
      requires AllReport(trades0, l.trades, data, name)
      ensures var acted := Act(costs, data, i, l, signal);
        Agree(acted, data, capital, position, entryPrice, entryDate, entryCharge)
          && AllReport(trades, acted.trades, data, name)
      ensures forall t :: t in trades ==> t in trades0 || fresh(t)
    {
      capital, trades, position := capital0, trades0, position0;
      entryPrice, entryDate, entryCharge := entryPrice0, entryDate0, entryCharge0;
      if signal.Buy? && position == 0 {
        position := 1;
        entryPrice := FillPrice(costs, row.close, BuySide);
        entryCharge := Charge(costs, entryPrice, BuySide);
        entryDate := row.time;
        capital := capital - entryCharge;
      } else if signal.Sell? && position == 1 {
        ghost var trip := LastTrip(costs, data, i, l);
        var trade, cash := CloseLeg(entryDate, entryPrice, entryCharge, row, name, trip, data);
        OneMoreReport(trades, l.trades, trade, trip, data, name);
        capital := capital + cash;
        trades := trades + [trade];
        position := 0;
      }
    }

    /** The round trip that leaving at bar `i` appends. */
    static ghost function LastTrip<S>(costs: Costs, data: seq<Bar>, i: nat, l: Ledger<S>): RoundTrip
      requires i < |data|
    {
      Exit(costs, data, i, l).trades[|l.trades|]
    }

    /** The reported net results, trade by trade. */
    method NetResults(trades: seq<Trade>, ghost trips: seq<RoundTrip>, ghost data: seq<Bar>, ghost name: string)
      returns (pnls: seq<real>)
      requires AllReport(trades, trips, data, name)
      ensures pnls == Pnls(trips)
    {
      pnls := [];
      for i := 0 to |trades|
        invariant |pnls| == i && forall k :: 0 <= k < i ==> pnls[k] == NetPnl(trips[k])
      {
        pnls := pnls + [trades[i].pnl];
      }
    }
  }
}
