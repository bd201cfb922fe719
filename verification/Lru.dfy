/** Recency order: what "least recently used" means, independently of how a cache keeps it. */
module Lru {
  import opened Common

  function Without<K(==)>(xs: seq<K>, k: K): seq<K> {
    if xs == [] then []
    else if xs[|xs| - 1] == k then Without(xs[..|xs| - 1], k)
    else Without(xs[..|xs| - 1], k) + [xs[|xs| - 1]]
  }

  /** `OrderedDict.move_to_end`, or the append that storing a new key does. */
  function MoveToEnd<K(==)>(xs: seq<K>, k: K): seq<K> {
    Without(xs, k) + [k]
  }

  function LastN<K>(xs: seq<K>, n: nat): seq<K> {
    if |xs| <= n then xs else xs[|xs| - n..]
  }

  /** The distinct keys of a touch history, least recently touched first. */
  function Recency<K(==)>(touches: seq<K>): seq<K> {
    if touches == [] then [] else MoveToEnd(Recency(touches[..|touches| - 1]), touches[|touches| - 1])
  }

  /** Position of the last touch of `k`. */
  function LastTouch<K(==)>(touches: seq<K>, k: K): (i: nat)
    requires k in touches
    ensures i < |touches| && touches[i] == k && k !in touches[i + 1..]
  {
    var n := |touches| - 1;
    if touches[n] == k then n
    else
      assert touches == touches[..n] + [touches[n]];
      var i := LastTouch(touches[..n], k);
      assert touches[i + 1..] == touches[..n][i + 1..] + [touches[n]];
      i
  }

  lemma {:induction false} WithoutSpec<K(!new)>(xs: seq<K>, k: K)
    ensures k !in Without(xs, k)
    ensures forall x :: x in Without(xs, k) <==> x in xs && x != k
    ensures k !in xs ==> Without(xs, k) == xs
    ensures Distinct(xs) ==> Distinct(Without(xs, k)) && |Without(xs, k)| == |xs| - (if k in xs then 1 else 0)
  {
    if xs != [] {
      var front := xs[..|xs| - 1];
      WithoutSpec(front, k);
      assert xs == front + [xs[|xs| - 1]];
      if Distinct(xs) {
        assert Distinct(front) by { assert forall i :: 0 <= i < |front| ==> front[i] == xs[i]; }
        assert xs[|xs| - 1] !in front;
      }
    }
  }

  lemma MoveToEndSpec<K(!new)>(xs: seq<K>, k: K)
    requires Distinct(xs)
    ensures Distinct(MoveToEnd(xs, k)) && MoveToEnd(xs, k) != []
    ensures MoveToEnd(xs, k)[|MoveToEnd(xs, k)| - 1] == k
    ensures forall x :: x in MoveToEnd(xs, k) <==> x in xs || x == k
    ensures |MoveToEnd(xs, k)| == |xs| + (if k in xs then 0 else 1)
  {
    WithoutSpec(xs, k);
  }

  lemma {:induction false} WithoutConcat<K(!new)>(xs: seq<K>, ys: seq<K>, k: K)
    ensures Without(xs + ys, k) == Without(xs, k) + Without(ys, k)
  {
    if ys == [] {
      assert xs + ys == xs;
    } else {
      var front := ys[..|ys| - 1];
      WithoutConcat(xs, front, k);
      assert (xs + ys)[..|xs + ys| - 1] == xs + front;
    }
  }

  /** Every key was touched, and each was touched last before all keys that follow it. */
  ghost predicate InTouchOrder<K(!new)>(touches: seq<K>, xs: seq<K>) {
    xs == [] ||
    var front, last := xs[..|xs| - 1], xs[|xs| - 1];
    InTouchOrder(touches, front) && last in touches &&
    forall x :: x in front ==> x in touches && LastTouch(touches, x) < LastTouch(touches, last)
  }

  lemma {:induction false} LastTouchAppend<K(!new)>(touches: seq<K>, x: K, k: K)
    requires x in touches && x != k
    ensures x in touches + [k] && LastTouch(touches + [k], x) == LastTouch(touches, x)
  {
    assert (touches + [k])[..|touches|] == touches;
  }

  lemma {:induction false} OrderSurvivesTouchOf<K(!new)>(touches: seq<K>, xs: seq<K>, k: K)
    requires InTouchOrder(touches, xs) && k !in xs
    ensures InTouchOrder(touches + [k], xs)
  {
    if xs != [] {
      var front, last := xs[..|xs| - 1], xs[|xs| - 1];
      OrderSurvivesTouchOf(touches, front, k);
      LastTouchAppend(touches, last, k);
      forall x | x in front ensures x in touches + [k] && LastTouch(touches + [k], x) == LastTouch(touches, x) {
        LastTouchAppend(touches, x, k);
      }
    }
  }

  lemma {:induction false} WithoutKeepsOrder<K(!new)>(touches: seq<K>, xs: seq<K>, k: K)
    requires InTouchOrder(touches, xs)
    ensures InTouchOrder(touches, Without(xs, k))
  {
    if xs != [] {
      var front := xs[..|xs| - 1];
      WithoutSpec(front, k);
      WithoutKeepsOrder(touches, front, k);
      assert Without(xs, k) == Without(front, k) + [xs[|xs| - 1]] ==>
        Without(xs, k)[..|Without(xs, k)| - 1] == Without(front, k);
    }
  }

  /** `Recency` lists each touched key once, ordered by the position of its last touch. */
  lemma {:induction false} RecencyIsOrderOfLastTouch<K(!new)>(touches: seq<K>)
    ensures Distinct(Recency(touches))
    ensures forall k :: k in Recency(touches) <==> k in touches
    ensures InTouchOrder(touches, Recency(touches))
  {
    if touches != [] {
      var n := |touches| - 1;
      var front, k := touches[..n], touches[n];
      assert touches == front + [k];
      hide Without, MoveToEnd, LastTouch, InTouchOrder, Distinct;
      RecencyIsOrderOfLastTouch(front);
      MoveToEndSpec(Recency(front), k);
      MoveToEndKeepsOrder(front, Recency(front), k);
    }
  }

  lemma MoveToEndKeepsOrder<K(!new)>(touches: seq<K>, xs: seq<K>, k: K)
    requires InTouchOrder(touches, xs)
    requires forall x :: x in xs ==> x in touches
    ensures InTouchOrder(touches + [k], MoveToEnd(xs, k))
  {
    var kept := Without(xs, k);
    WithoutSpec(xs, k);
    WithoutKeepsOrder(touches, xs, k);
    OrderSurvivesTouchOf(touches, kept, k);
    assert (kept + [k])[..|kept|] == kept;
    forall x | x in kept ensures LastTouch(touches + [k], x) < LastTouch(touches + [k], k) {
      LastTouchAppend(touches, x, k);
    }
  }

  lemma LastNOfConcat<K>(xs: seq<K>, ys: seq<K>, n: nat)
    requires |ys| >= n
    ensures LastN(xs + ys, n) == LastN(ys, n)
  {
    assert (xs + ys)[|xs + ys| - n..] == ys[|ys| - n..];
    assert |ys| == n ==> ys[|ys| - n..] == ys;
    assert |xs + ys| == n ==> xs + ys == ys;
  }

  /** Touching a key and then cutting to the newest `n` needs only the newest `n` of before. */
  lemma TouchCommutesWithCut<K(!new)>(xs: seq<K>, k: K, n: nat)
    requires Distinct(xs) && n >= 1
    ensures LastN(MoveToEnd(LastN(xs, n), k), n) == LastN(MoveToEnd(xs, k), n)
    ensures k in LastN(xs, n) ==> LastN(MoveToEnd(LastN(xs, n), k), n) == MoveToEnd(LastN(xs, n), k)
  {
    var warm := LastN(xs, n);
    CutIsDistinct(xs, n);
    WithoutSpec(warm, k);
    if |xs| > n {
      var cold := xs[..|xs| - n];
      assert xs == cold + warm;
      WithoutConcat(cold, warm, k);
      assert MoveToEnd(xs, k) == Without(cold, k) + MoveToEnd(warm, k);
      LastNOfConcat(Without(cold, k), MoveToEnd(warm, k), n);
    }
  }

  lemma CutKeepsNewest<K>(xs: seq<K>, n: nat)
    requires xs != [] && n >= 1
    ensures |LastN(xs, n)| <= n && LastN(xs, n) != [] && LastN(xs, n)[|LastN(xs, n)| - 1] == xs[|xs| - 1]
    ensures xs[|xs| - 1] in LastN(xs, n)
  {
    assert LastN(xs, n)[|LastN(xs, n)| - 1] == xs[|xs| - 1];
  }

  lemma DropOldest<K(!new)>(xs: seq<K>)
    requires Distinct(xs) && xs != []
    ensures Distinct(xs[1..])
    ensures forall k :: k in xs[1..] <==> k in xs && k != xs[0]
  {
    assert xs == [xs[0]] + xs[1..];
    assert forall i :: 0 <= i < |xs| - 1 ==> xs[1..][i] == xs[i + 1];
  }

  lemma CutIsDistinct<K(!new)>(xs: seq<K>, n: nat)
    requires Distinct(xs)
    ensures Distinct(LastN(xs, n))
    ensures forall x :: x in LastN(xs, n) ==> x in xs
  {
    if |xs| > n {
      assert forall i :: 0 <= i < n ==> LastN(xs, n)[i] == xs[|xs| - n + i];
    }
  }

  lemma {:induction false} RecencySplits<K(!new)>(before: seq<K>, k: K, after: seq<K>) returns (older: seq<K>)
    requires k !in after
    ensures k !in older
    ensures Recency(before + [k] + after) == older + [k] + Recency(after)
    decreases |after|
  {
    if after == [] {
      older := Without(Recency(before), k);
      WithoutSpec(Recency(before), k);
      assert before + [k] + after == before + [k];
      assert (before + [k])[..|before|] == before;
    } else {
      var front, y := after[..|after| - 1], after[|after| - 1];
      var x := RecencySplits(before, k, front);
      assert (before + [k] + after)[..|before + [k] + after| - 1] == before + [k] + front;
      WithoutSpec(x, y);
      WithoutConcat(x + [k], Recency(front), y);
      WithoutConcat(x, [k], y);
      assert Without([k], y) == [k];
      older := Without(x, y);
    }
  }

  lemma CutKeepsMiddle<K>(older: seq<K>, k: K, newer: seq<K>, n: nat)
    requires k !in newer && k !in older
    ensures k in LastN(older + [k] + newer, n) <==> |newer| < n
  {
    if |newer| < n {
      LastNTail(older, [k] + newer, n);
      assert older + [k] + newer == older + ([k] + newer);
    } else {
      LastNOfConcat(older + [k], newer, n);
      assert forall x :: x in LastN(newer, n) ==> x in newer;
    }
  }

  lemma LastNTail<K>(xs: seq<K>, ys: seq<K>, n: nat)
    requires ys != [] && |ys| <= n
    ensures ys[0] in LastN(xs + ys, n)
  {
    var whole := xs + ys;
    if |whole| > n {
      assert LastN(whole, n)[|xs| - (|whole| - n)] == whole[|xs|];
    } else {
      assert whole[|xs|] == ys[0];
    }
  }

  /** Fewer than `n` distinct keys were touched after the last touch of `k`. */
  predicate TouchedWithin<K(==)>(touches: seq<K>, k: K, n: nat) {
    k in touches && |Recency(touches[LastTouch(touches, k) + 1..])| < n
  }

  lemma RecentIffTouchedWithin<K(!new)>(touches: seq<K>, k: K, n: nat)
    requires k in touches
    ensures k in LastN(Recency(touches), n) <==> TouchedWithin(touches, k, n)
  {
    var i := LastTouch(touches, k);
    var after := touches[i + 1..];
    var older := RecencySplits(touches[..i], k, after);
    assert touches == touches[..i] + [k] + after;
    RecencyIsOrderOfLastTouch(after);
    CutKeepsMiddle(older, k, Recency(after), n);
  }

  /** A key is among the `n` most recent exactly when it was touched and fewer than `n` distinct keys came after. */
  lemma RecentIff<K(!new)>(touches: seq<K>, k: K, n: nat)
    ensures k in LastN(Recency(touches), n) <==> TouchedWithin(touches, k, n)
  {
    if k in touches {
      RecentIffTouchedWithin(touches, k, n);
    } else {
      RecencyIsOrderOfLastTouch(touches);
      CutIsDistinct(Recency(touches), n);
    }
  }
}
