/** Drawdown of an equity curve: the one-pass forms the programs compute and the pairwise definition. */
module Drawdown {
  import opened Common

  /** Highest equity seen up to and including point `j`. */
  function Peak(curve: seq<real>, j: nat): real
    requires j < |curve|
  {
    if j == 0 then curve[0] else Max(Peak(curve, j - 1), curve[j])
  }

  lemma {:induction false} PeakIsHighest(curve: seq<real>, j: nat) returns (top: nat)
    requires j < |curve|
    ensures forall i :: 0 <= i <= j ==> curve[i] <= Peak(curve, j)
    ensures top <= j && curve[top] == Peak(curve, j)
  {
    top := j;
    if j > 0 {
      var earlier := PeakIsHighest(curve, j - 1);
      if curve[j] < Peak(curve, j - 1) {
        top := earlier;
      }
    }
  }

  /** Largest value, over the first `n` points, of a measure of the running peak and the equity. */
  function Worst(curve: seq<real>, n: nat, measure: (real, real) -> real): real
    requires 1 <= n <= |curve|
  {
    var here := measure(Peak(curve, n - 1), curve[n - 1]);
    if n == 1 then here else Max(Worst(curve, n - 1, measure), here)
  }

  lemma {:induction false} WorstIsLargest(curve: seq<real>, n: nat, measure: (real, real) -> real) returns (at: nat)
    requires 1 <= n <= |curve|
    ensures forall j :: 0 <= j < n ==> measure(Peak(curve, j), curve[j]) <= Worst(curve, n, measure)
    ensures at < n && measure(Peak(curve, at), curve[at]) == Worst(curve, n, measure)
  {
    at := n - 1;
    if n > 1 {
      var earlier := WorstIsLargest(curve, n - 1, measure);
      if Worst(curve, n, measure) == Worst(curve, n - 1, measure) {
        at := earlier;
      }
    }
  }

  function Drop(high: real, low: real): real {
    high - low
  }

  /** Fall from `high` to `low` as a percentage of `high`, taken as zero for a peak that is not positive. */
  function FallPct(high: real, low: real): real {
    if high > 0.0 then (high - low) / high * 100.0 else 0.0
  }

  /** `np.max(np.maximum.accumulate(equity) - equity)`. */
  function MaxDrop(curve: seq<real>): real
    requires curve != []
  {
    Worst(curve, |curve|, Drop)
  }

  /** The running-peak percentage of the walk-forward metrics. */
  function MaxFallPct(curve: seq<real>): real
    requires curve != []
  {
    Worst(curve, |curve|, FallPct)
  }

  /** The engine's percentage: the largest absolute drop over the highest point of the whole curve. */
  function DropPctOfTop(curve: seq<real>): real
    requires curve != []
  {
    var top := Peak(curve, |curve| - 1);
    if top > 0.0 then MaxDrop(curve) / top * 100.0 else 0.0
  }

  lemma DivTimes(x: real, y: real)
    requires y != 0.0
    ensures x / y * y == x
  {
  }

  lemma QuotientOrder(x: real, a: real, y: real, b: real)
    requires a > 0.0 && b > 0.0
    ensures x / a <= y / b <==> x * b <= y * a
  {
    var p, q := x / a, y / b;
    DivTimes(x, a);
    DivTimes(y, b);
    assert x * b == p * (a * b);
    assert y * a == q * (a * b);
    assert a * b > 0.0;
    ScaleOrder(p, q, a * b);
  }

  lemma ScaleOrder(p: real, q: real, m: real)
    requires m > 0.0
    ensures p <= q <==> p * m <= q * m
  {
    if p <= q {
      assert (q - p) * m >= 0.0;
    } else {
      assert (p - q) * m > 0.0;
    }
  }

  lemma SignOfProduct(x: real, d: real)
    requires d > 0.0
    ensures 0.0 <= x * d <==> 0.0 <= x
  {
    ScaleOrder(0.0, x, d);
  }

  /** Falling to the same level from a higher positive peak is the larger percentage exactly when the level is not
      negative (or the peaks are equal). */
  lemma HigherPeakFallsFurther(low: real, a: real, b: real)
    requires 0.0 < a <= b
    ensures FallPct(a, low) <= FallPct(b, low) <==> (low >= 0.0 || a == b)
  {
    var x, y := a - low, b - low;
    QuotientOrder(x, a, y, b);
    ScaleOrder(x / a, y / b, 100.0);
    assert y * a - x * b == low * (b - a) by { assert y * a == b * a - low * a; assert x * b == a * b - low * b; }
    if a < b {
      var d := b - a;
      SignOfProduct(low, d);
      assert x * b <= y * a <==> 0.0 <= low * d;
    }
    assert FallPct(a, low) == x / a * 100.0 && FallPct(b, low) == y / b * 100.0;
  }

  /** The accumulated drop is the largest `curve[i] - curve[j]` over all pairs in time order. */
  lemma MaxDropIsLargestPair(curve: seq<real>)
    requires curve != []
    ensures forall i, j :: 0 <= i <= j < |curve| ==> curve[i] - curve[j] <= MaxDrop(curve)
    ensures exists i, j :: 0 <= i <= j < |curve| && curve[i] - curve[j] == MaxDrop(curve)
  {
    var at := WorstIsLargest(curve, |curve|, Drop);
    forall i, j | 0 <= i <= j < |curve| ensures curve[i] - curve[j] <= MaxDrop(curve) {
      var _ := PeakIsHighest(curve, j);
      assert Drop(Peak(curve, j), curve[j]) <= MaxDrop(curve);
    }
    var top := PeakIsHighest(curve, at);
    assert curve[top] - curve[at] == MaxDrop(curve);
  }

  /** At one point, the running peak gives the largest fall from any earlier positive equity exactly when the equity
      there is not negative, or every earlier positive equity equals the peak. */
  lemma PeakIsWorstStart(curve: seq<real>, j: nat)
    requires j < |curve| && Peak(curve, j) > 0.0
    ensures (forall i :: 0 <= i <= j && curve[i] > 0.0 ==>
             FallPct(curve[i], curve[j]) <= FallPct(Peak(curve, j), curve[j]))
      <==> (curve[j] >= 0.0 || forall i :: 0 <= i <= j && curve[i] > 0.0 ==> curve[i] == Peak(curve, j))
  {
    var _ := PeakIsHighest(curve, j);
    forall i | 0 <= i <= j && curve[i] > 0.0
      ensures FallPct(curve[i], curve[j]) <= FallPct(Peak(curve, j), curve[j]) <==>
        (curve[j] >= 0.0 || curve[i] == Peak(curve, j))
    {
      HigherPeakFallsFurther(curve[j], curve[i], Peak(curve, j));
    }
  }

  /** While equity stays non-negative and starts positive, the one-pass percentage is the largest
      `(curve[i] - curve[j]) / curve[i]` over all pairs in time order with a positive start. */
  lemma MaxFallPctIsLargestPair(curve: seq<real>)
    requires curve != [] && curve[0] > 0.0
    requires forall j :: 0 <= j < |curve| ==> curve[j] >= 0.0
    ensures forall i, j :: 0 <= i <= j < |curve| && curve[i] > 0.0 ==> FallPct(curve[i], curve[j]) <= MaxFallPct(curve)
    ensures exists i, j :: 0 <= i <= j < |curve| && curve[i] > 0.0 && FallPct(curve[i], curve[j]) == MaxFallPct(curve)
  {
    var at := WorstIsLargest(curve, |curve|, FallPct);
    forall i, j | 0 <= i <= j < |curve| && curve[i] > 0.0 ensures FallPct(curve[i], curve[j]) <= MaxFallPct(curve) {
      var _ := PeakIsHighest(curve, j);
      PeakIsWorstStart(curve, j);
    }
    var top := PeakIsHighest(curve, at);
    assert FallPct(curve[top], curve[at]) == MaxFallPct(curve);
  }

  /** The lowest positive equity seen up to and including point `j`. */
  function LowestPositive(curve: seq<real>, j: nat): (low: real)
    requires j < |curve| && curve[0] > 0.0
    ensures low > 0.0
  {
    if j == 0 then curve[0]
    else
      var low := LowestPositive(curve, j - 1);
      if 0.0 < curve[j] < low then curve[j] else low
  }

  lemma {:induction false} LowestPositiveIsLowest(curve: seq<real>, j: nat) returns (at: nat)
    requires j < |curve| && curve[0] > 0.0
    ensures forall i :: 0 <= i <= j && curve[i] > 0.0 ==> LowestPositive(curve, j) <= curve[i]
    ensures at <= j && curve[at] == LowestPositive(curve, j)
  {
    at := j;
    if j > 0 {
      var earlier := LowestPositiveIsLowest(curve, j - 1);
      if !(0.0 < curve[j] < LowestPositive(curve, j - 1)) {
        at := earlier;
      }
    }
  }

  /** Some running-peak fall on the curve is at least as large. */
  ghost predicate Matched(fall: real, curve: seq<real>) {
    exists k :: 0 <= k < |curve| && fall <= FallPct(Peak(curve, k), curve[k])
  }

  lemma MatchedMeans(fall: real, curve: seq<real>)
    requires curve != []
    ensures Matched(fall, curve) <==> fall <= MaxFallPct(curve)
  {
    var at := WorstIsLargest(curve, |curve|, FallPct);
    if fall <= MaxFallPct(curve) {
      assert fall <= FallPct(Peak(curve, at), curve[at]);
    }
    hide FallPct, Peak;
  }

  lemma FallsTo(curve: seq<real>, j: nat)
    requires j < |curve| && curve[0] > 0.0
    ensures curve[j] >= 0.0 ==> forall i :: 0 <= i <= j && curve[i] > 0.0 ==>
      Matched(FallPct(curve[i], curve[j]), curve)
    ensures curve[j] < 0.0 ==>
      ((forall i :: 0 <= i <= j && curve[i] > 0.0 ==> Matched(FallPct(curve[i], curve[j]), curve)) <==>
        Matched(FallPct(LowestPositive(curve, j), curve[j]), curve))
  {
    var _ := PeakIsHighest(curve, j);
    var at := LowestPositiveIsLowest(curve, j);
    if curve[j] >= 0.0 {
      PeakIsWorstStart(curve, j);
    } else {
      forall i | 0 <= i <= j && curve[i] > 0.0
        ensures FallPct(curve[i], curve[j]) <= FallPct(LowestPositive(curve, j), curve[j])
      {
        HigherPeakFallsFurther(curve[j], LowestPositive(curve, j), curve[i]);
      }
    }
    hide FallPct, Peak, LowestPositive;
  }

  /** For every curve that starts positive: the one-pass percentage bounds the fall of every pair in time order exactly
      when, wherever the equity is negative, the fall from the lowest positive equity so far is no larger than some
      running-peak fall of the curve. */
  lemma MaxFallPctBoundsPairsIff(curve: seq<real>)
    requires curve != [] && curve[0] > 0.0
    ensures (forall i, j :: 0 <= i <= j < |curve| && curve[i] > 0.0 ==>
             FallPct(curve[i], curve[j]) <= MaxFallPct(curve)) <==>
      (forall j :: 0 <= j < |curve| && curve[j] < 0.0 ==> Matched(FallPct(LowestPositive(curve, j), curve[j]), curve))
    ensures exists i, j :: 0 <= i <= j < |curve| && curve[i] > 0.0 && FallPct(curve[i], curve[j]) == MaxFallPct(curve)
  {
    forall fall ensures Matched(fall, curve) <==> fall <= MaxFallPct(curve) {
      MatchedMeans(fall, curve);
    }
    forall j | 0 <= j < |curve|
      ensures curve[j] >= 0.0 ==> forall i :: 0 <= i <= j && curve[i] > 0.0 ==>
        Matched(FallPct(curve[i], curve[j]), curve)
      ensures curve[j] < 0.0 ==>
        ((forall i :: 0 <= i <= j && curve[i] > 0.0 ==> Matched(FallPct(curve[i], curve[j]), curve)) <==>
          Matched(FallPct(LowestPositive(curve, j), curve[j]), curve))
    {
      FallsTo(curve, j);
    }
    var at := WorstIsLargest(curve, |curve|, FallPct);
    var top := PeakIsHighest(curve, at);
    hide Matched, Peak, LowestPositive;
    assert FallPct(curve[top], curve[at]) == MaxFallPct(curve);
    hide FallPct, MaxFallPct;
  }

  /** Below zero the pairwise definition can exceed the one-pass figure: 1 -> 2 -> -1 falls by 150% of the peak,
      but by 200% of the start. */
  lemma NegativeEquityBreaksPairs()
    ensures var curve := [1.0, 2.0, -1.0]; FallPct(curve[0], curve[2]) > MaxFallPct(curve)
  {
    var curve := [1.0, 2.0, -1.0];
    assert Peak(curve, 0) == 1.0 && Peak(curve, 1) == 2.0 && Peak(curve, 2) == 2.0;
    assert Worst(curve, 1, FallPct) == 0.0;
    assert Worst(curve, 2, FallPct) == 0.0;
    assert FallPct(2.0, -1.0) == 150.0;
  }

  lemma {:induction false} PeakGrows(curve: seq<real>, i: nat, j: nat)
    requires i <= j < |curve|
    ensures Peak(curve, i) <= Peak(curve, j)
  {
    if i < j {
      PeakGrows(curve, i, j - 1);
    }
  }

  lemma SameDropSmallerBase(drop: real, high: real, top: real)
    requires drop >= 0.0 && 0.0 < high <= top
    ensures drop / top * 100.0 <= drop / high * 100.0
  {
    QuotientOrder(drop, top, drop, high);
    assert drop * (top - high) >= 0.0;
    ScaleOrder(drop / top, drop / high, 100.0);
  }

  /** On one curve the engine's percentage never exceeds the walk-forward percentage. */
  predicate IsTop(curve: seq<real>, top: real) {
    top in curve && forall x :: x in curve ==> x <= top
  }

  /** The engine's percentage is the largest fall in time order as a percentage of the highest point of the curve, zero
      when that is not positive. */
  lemma EnginePctIsOfTheTop(curve: seq<real>, top: real)
    requires curve != [] && IsTop(curve, top)
    ensures if top > 0.0 then DropPctOfTop(curve) * top == MaxDrop(curve) * 100.0 else DropPctOfTop(curve) == 0.0
  {
    hide MaxDrop;
    TopIsPeak(curve, top);
    if top > 0.0 {
      DivTimes(MaxDrop(curve), top);
    }
  }

  lemma TopIsPeak(curve: seq<real>, top: real)
    requires curve != [] && IsTop(curve, top)
    ensures Peak(curve, |curve| - 1) == top
  {
    var at := PeakIsHighest(curve, |curve| - 1);
    assert curve[at] in curve;
    var j :| 0 <= j < |curve| && curve[j] == top;
  }

  lemma EnginePctIsSmaller(curve: seq<real>)
    requires curve != [] && curve[0] > 0.0
    ensures DropPctOfTop(curve) <= MaxFallPct(curve)
  {
    var at := WorstIsLargest(curve, |curve|, Drop);
    var _ := WorstIsLargest(curve, |curve|, FallPct);
    var _ := PeakIsHighest(curve, at);
    PeakGrows(curve, at, |curve| - 1);
    SameDropSmallerBase(MaxDrop(curve), Peak(curve, at), Peak(curve, |curve| - 1));
    assert FallPct(Peak(curve, at), curve[at]) <= MaxFallPct(curve);
  }
}
