/** The summary figures of a list of net results, each described by what it is a figure of. */
module Stats {
  import opened Common
  import opened Drawdown

  datatype ProfitFactor = Ratio(value: real) | Unbounded

  function Wins(pnls: seq<real>): (n: nat)
    ensures n <= |pnls|
  {
    if pnls == [] then 0 else Wins(pnls[..|pnls| - 1]) + (if pnls[|pnls| - 1] > 0.0 then 1 else 0)
  }

  function GrossProfit(pnls: seq<real>): (g: real)
    ensures g >= 0.0
  {
    if pnls == [] then 0.0 else GrossProfit(pnls[..|pnls| - 1]) + Max(pnls[|pnls| - 1], 0.0)
  }

  function GrossLoss(pnls: seq<real>): (g: real)
    ensures g >= 0.0
  {
    if pnls == [] then 0.0 else GrossLoss(pnls[..|pnls| - 1]) + Max(-pnls[|pnls| - 1], 0.0)
  }

  function Losses(pnls: seq<real>): (n: nat)
    ensures n <= |pnls|
  {
    if pnls == [] then 0 else Losses(pnls[..|pnls| - 1]) + (if pnls[|pnls| - 1] < 0.0 then 1 else 0)
  }

  predicate Gains(pnl: real) {
    pnl > 0.0
  }

  predicate Loses(pnl: real) {
    0.0 > pnl
  }

  /** Wins and losses are the results above and below zero, gross profit and gross loss their sums. */
  lemma {:induction false} CountsAndSums(pnls: seq<real>)
    ensures Wins(pnls) == |Filter(pnls, Gains)| && Losses(pnls) == |Filter(pnls, Loses)|
    ensures GrossProfit(pnls) == Sum(Filter(pnls, Gains)) && GrossLoss(pnls) == -Sum(Filter(pnls, Loses))
    ensures Wins(pnls) + Losses(pnls) <= |pnls| && Sum(pnls) == GrossProfit(pnls) - GrossLoss(pnls)
  {
    if pnls != [] {
      CountsAndSums(pnls[..|pnls| - 1]);
    }
  }

  /** `part` is `pct` percent of `whole`, zero by convention of a zero `whole`. */
  ghost predicate IsPercent(pct: real, part: real, whole: real) {
    if whole == 0.0 then pct == 0.0 else pct * whole == part * 100.0
  }

  /** Gross profit per unit of gross loss, unbounded exactly when nothing was lost. */
  ghost predicate IsFactor(f: ProfitFactor, profit: real, loss: real) {
    match f
    case Unbounded => loss == 0.0
    case Ratio(value) => loss > 0.0 && value * loss == profit
  }

  /** `x` is the average of `n` values that sum to `total`; zero by convention when there are none. */
  ghost predicate IsMean(x: real, total: real, n: nat) {
    if n == 0 then x == 0.0 && total == 0.0 else x * n as real == total
  }

  method Average(total: real, n: nat) returns (x: real)
    requires n > 0
    ensures IsMean(x, total, n)
  {
    DivTimes(total, n as real);
    x := total / n as real;
  }

  /** The average of the values counted, zero when there is none. */
  method AverageOrZero(total: real, n: nat) returns (x: real)
    requires n == 0 ==> total == 0.0
    ensures IsMean(x, total, n)
  {
    if n == 0 {
      x := 0.0;
    } else {
      x := Average(total, n);
    }
  }

  lemma {:induction false} NothingCountedNothingSummed(pnls: seq<real>)
    ensures Wins(pnls) == 0 ==> GrossProfit(pnls) == 0.0
    ensures Losses(pnls) == 0 ==> GrossLoss(pnls) == 0.0
  {
    if pnls != [] {
      NothingCountedNothingSummed(pnls[..|pnls| - 1]);
    }
  }

  method Percent(part: real, whole: real) returns (pct: real)
    ensures IsPercent(pct, part, whole)
  {
    if whole == 0.0 {
      pct := 0.0;
    } else {
      DivTimes(part, whole);
      pct := part / whole * 100.0;
    }
  }

  method FactorOf(profit: real, loss: real) returns (f: ProfitFactor)
    requires loss >= 0.0
    ensures IsFactor(f, profit, loss)
  {
    if loss > 0.0 {
      DivTimes(profit, loss);
      f := Ratio(profit / loss);
    } else {
      f := Unbounded;
    }
  }

  lemma {:induction false} WinsAppend(xs: seq<real>, ys: seq<real>)
    ensures Wins(xs + ys) == Wins(xs) + Wins(ys)
    decreases |ys|
  {
    if ys == [] {
      assert xs + ys == xs;
    } else {
      WinsAppend(xs, ys[..|ys| - 1]);
      assert (xs + ys)[..|xs + ys| - 1] == xs + ys[..|ys| - 1];
    }
  }

  lemma MeanTimesCount(x: real, total: real, n: nat)
    requires IsMean(x, total, n)
    ensures x * n as real == total
  {
  }
}
