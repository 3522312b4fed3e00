/** One batch cut over several grants: consecutive slices in proportion to each grant's throughput. */
module Span {
  import opened Shards

  /** The seconds of the first `i` items. */
  function Running(seconds: seq<real>, i: nat): real
    requires i <= |seconds|
  {
    RangeSum(seconds, 0, i)
  }

  function Whole(weights: seq<real>): real {
    RangeSum(weights, 0, |weights|)
  }

  /** Where the first `k` grants' exact share of the batch ends. */
  function Target(seconds: seq<real>, weights: seq<real>, k: nat): real
    requires k <= |weights| && Whole(weights) != 0.0
  {
    PartOf(Running(seconds, |seconds|), Whole(weights), RangeSum(weights, 0, k))
  }

  function PartOf(total: real, whole: real, share: real): real
    requires whole != 0.0
  {
    total * share / whole
  }

  function Distance(a: real, b: real): real {
    if a >= b then a - b else b - a
  }

  /** The largest single item, 0 of none. */
  function LargestItem(seconds: seq<real>): real {
    if seconds == [] then 0.0 else Larger(LargestItem(seconds[..|seconds| - 1]), seconds[|seconds| - 1])
  }

  lemma {:induction false} LargestIsLargest(seconds: seq<real>)
    ensures LargestItem(seconds) >= 0.0
    ensures forall i :: 0 <= i < |seconds| ==> seconds[i] <= LargestItem(seconds)
  {
    if seconds != [] {
      LargestIsLargest(seconds[..|seconds| - 1]);
      assert forall i :: 0 <= i < |seconds| - 1 ==> seconds[..|seconds| - 1][i] == seconds[i];
    }
  }

  /** The first item boundary from `start` on whose running sum is nearest the target. */
  predicate IsNearest(seconds: seq<real>, start: nat, target: real, stop: nat) {
    && start <= stop <= |seconds|
    && (forall i :: start <= i <= |seconds| ==>
          Distance(Running(seconds, stop), target) <= Distance(Running(seconds, i), target))
    && (forall i :: start <= i < stop ==>
          Distance(Running(seconds, stop), target) < Distance(Running(seconds, i), target))
  }

  method Nearest(seconds: seq<real>, start: nat, target: real) returns (stop: nat)
    requires start <= |seconds|
    ensures IsNearest(seconds, start, target, stop)
  {
    hide Distance, Running;
    stop := start;
    for i := start + 1 to |seconds| + 1
      invariant start <= stop < i
      invariant forall j :: start <= j < i ==>
                  Distance(Running(seconds, stop), target) <= Distance(Running(seconds, j), target)
      invariant forall j :: start <= j < stop ==>
                  Distance(Running(seconds, stop), target) < Distance(Running(seconds, j), target)
    {
      if Distance(Running(seconds, i), target) < Distance(Running(seconds, stop), target) { stop := i; }
    }
  }

  // ----- a cut is never further than half an item from where it belongs

  lemma {:induction false} RunningRises(seconds: seq<real>, a: nat, b: nat)
    requires NonNegative(seconds) && a <= b <= |seconds|
    ensures Running(seconds, a) <= Running(seconds, b)
  {
    RangesAdd(seconds, 0, a, b);
    RangeIsNonNegative(seconds, a, b);
  }

  /** The item a target falls in: the last boundary at or below it. */
  lemma {:induction false} FallsIn(seconds: seq<real>, target: real, n: nat) returns (j: nat)
    requires n <= |seconds| && 0.0 <= target <= Running(seconds, n)
    ensures j <= n && Running(seconds, j) <= target
    ensures j < n ==> target <= Running(seconds, j + 1)
    ensures j == n ==> target == Running(seconds, n)
    decreases n
  {
    if n == 0 || target == Running(seconds, n) {
      j := n;
    } else if target >= Running(seconds, n - 1) {
      j := n - 1;
    } else {
      j := FallsIn(seconds, target, n - 1);
    }
  }

  lemma OneItem(seconds: seq<real>, j: nat)
    requires j < |seconds|
    ensures Running(seconds, j + 1) == Running(seconds, j) + seconds[j]
  {
  }

  /** Of two boundaries an item apart around a target, the nearer is within half of it. */
  lemma HalfAway(low: real, high: real, target: real, item: real)
    requires low <= target <= high && high - low <= item
    ensures Distance(low, target) <= item / 2.0 || Distance(high, target) <= item / 2.0
  {
  }

  /** Cutting on from a cut within half an item of an earlier target stays within half an item. */
  lemma CutWithinHalf(seconds: seq<real>, start: nat, before: real, target: real, stop: nat)
    requires NonNegative(seconds) && IsNearest(seconds, start, target, stop)
    requires 0.0 <= before <= target <= Running(seconds, |seconds|)
    requires Distance(Running(seconds, start), before) <= LargestItem(seconds) / 2.0
    ensures Distance(Running(seconds, stop), target) <= LargestItem(seconds) / 2.0
  {
    hide Running, LargestItem;
    LargestIsLargest(seconds);
    var j := FallsIn(seconds, target, |seconds|);
    if j == |seconds| {
    } else if start <= j {
      OneItem(seconds, j);
      HalfAway(Running(seconds, j), Running(seconds, j + 1), target, LargestItem(seconds));
    } else {
      RunningRises(seconds, j + 1, start);
    }
  }

  // ----- the split

  /** Each range ends within half an item of where its grants' share does, and holds its own share but for one item. */
  predicate InProportion(seconds: seq<real>, weights: seq<real>, ranges: seq<Range>)
    requires |ranges| <= |weights| && Whole(weights) != 0.0 && InRange(ranges, |seconds|)
  {
    forall k :: 0 <= k < |ranges| ==>
                  && Distance(Running(seconds, ranges[k].1), Target(seconds, weights, k + 1))
                     <= LargestItem(seconds) / 2.0
                  && Distance(RangeSum(seconds, ranges[k].0, ranges[k].1),
                              Target(seconds, weights, k + 1) - Target(seconds, weights, k)) <= LargestItem(seconds)
  }

  /** The first `cuts` ranges end at the item boundary, from where they begin, nearest to their exact share's end. */
  predicate CutsNearest(seconds: seq<real>, weights: seq<real>, ranges: seq<Range>, cuts: nat)
    requires Whole(weights) != 0.0
  {
    && cuts <= |ranges| && cuts < |weights|
    && forall k :: 0 <= k < cuts ==>
                     IsNearest(seconds, ranges[k].0, Target(seconds, weights, k + 1), ranges[k].1)
  }

  lemma NoCuts(seconds: seq<real>, weights: seq<real>)
    requires weights != [] && Whole(weights) != 0.0
    ensures CutsNearest(seconds, weights, [], 0)
  {
  }

  lemma OneCutMore(seconds: seq<real>, weights: seq<real>, ranges: seq<Range>, range: Range, k: nat)
    requires Whole(weights) != 0.0 && |ranges| == k && k + 1 < |weights| && CutsNearest(seconds, weights, ranges, k)
    requires IsNearest(seconds, range.0, Target(seconds, weights, k + 1), range.1)
    ensures CutsNearest(seconds, weights, ranges + [range], k + 1)
  {
    hide IsNearest, Target;
  }

  lemma LastRangeIsNoCut(seconds: seq<real>, weights: seq<real>, ranges: seq<Range>, range: Range, cuts: nat)
    requires Whole(weights) != 0.0 && |ranges| == cuts && CutsNearest(seconds, weights, ranges, cuts)
    ensures CutsNearest(seconds, weights, ranges + [range], cuts)
  {
    hide IsNearest, Target;
  }

  /** A grant's share is its weight's part of the batch. */
  lemma SharesAreExact(seconds: seq<real>, weights: seq<real>, k: nat)
    requires Whole(weights) != 0.0 && k < |weights|
    ensures Target(seconds, weights, 0) == 0.0
    ensures (Target(seconds, weights, k + 1) - Target(seconds, weights, k)) * Whole(weights) ==
            RangeSum(seconds, 0, |seconds|) * weights[k]
  {
    hide RangeSum;
    var total, whole, before := Running(seconds, |seconds|), Whole(weights), RangeSum(weights, 0, k);
    assert RangeSum(weights, 0, k + 1) == before + weights[k] && RangeSum(weights, 0, 0) == 0.0 by {
      RangeUnfolds(weights, k);
    }
    ShareOf(total, whole, before, weights[k]);
  }

  lemma RangeUnfolds(weights: seq<real>, k: nat)
    requires k < |weights|
    ensures RangeSum(weights, 0, k + 1) == RangeSum(weights, 0, k) + weights[k] && RangeSum(weights, 0, 0) == 0.0
  {
  }

  lemma ShareOf(total: real, whole: real, before: real, weight: real)
    requires whole != 0.0
    ensures (PartOf(total, whole, before + weight) - PartOf(total, whole, before)) * whole == total * weight
    ensures PartOf(total, whole, 0.0) == 0.0
  {
    assert PartOf(total, whole, before + weight) * whole == total * (before + weight);
    assert PartOf(total, whole, before) * whole == total * before;
  }

  predicate Priceable(weights: seq<real>) {
    NonNegative(weights) && Whole(weights) > 0.0
  }

  lemma TargetsRise(seconds: seq<real>, weights: seq<real>, k: nat)
    requires NonNegative(seconds) && Priceable(weights) && k < |weights|
    ensures 0.0 <= Target(seconds, weights, k) <= Target(seconds, weights, k + 1) <= Running(seconds, |seconds|)
    ensures Target(seconds, weights, 0) == 0.0
    ensures Target(seconds, weights, |weights|) == Running(seconds, |seconds|)
  {
    hide PartOf, RangeSum;
    RangeWithin(weights, 0, k);
    RangeWithin(weights, 0, k + 1);
    RangeIsNonNegative(seconds, 0, |seconds|);
    RangesAdd(weights, 0, k, k + 1);
    RangeIsNonNegative(weights, k, k + 1);
    var total, whole := Running(seconds, |seconds|), Whole(weights);
    var a, b := RangeSum(weights, 0, k), RangeSum(weights, 0, k + 1);
    PartsInOrder(total, whole, a, b);
    PartsInOrder(total, whole, b, whole);
    PartsInOrder(total, whole, 0.0, a);
    PartsAtEnds(total, whole);
    NothingSummed(weights);
  }

  lemma NothingSummed(weights: seq<real>)
    ensures RangeSum(weights, 0, 0) == 0.0
  {
  }

  lemma PartsAtEnds(total: real, whole: real)
    requires whole > 0.0
    ensures PartOf(total, whole, 0.0) == 0.0 && PartOf(total, whole, whole) == total
  {
  }

  lemma PartsInOrder(total: real, whole: real, a: real, b: real)
    requires total >= 0.0 && whole > 0.0 && a <= b
    ensures PartOf(total, whole, a) <= PartOf(total, whole, b)
  {
    var more := PartOf(total, whole, b) - PartOf(total, whole, a);
    assert more * whole == total * b - total * a;
    assert total * (b - a) >= 0.0;
    Quotient(more, whole);
  }

  lemma Quotient(x: real, whole: real)
    requires whole > 0.0 && x * whole >= 0.0
    ensures x >= 0.0
  {
  }

  lemma {:induction false} SliceInProportion(seconds: seq<real>, start: nat, stop: nat, before: real, target: real)
    requires start <= stop <= |seconds|
    requires Distance(Running(seconds, start), before) <= LargestItem(seconds) / 2.0
    requires Distance(Running(seconds, stop), target) <= LargestItem(seconds) / 2.0
    ensures Distance(RangeSum(seconds, start, stop), target - before) <= LargestItem(seconds)
  {
    RangesAdd(seconds, 0, start, stop);
  }

  /** Consecutive slices covering the batch, each within one item of its grant's exact share. */
  method Split(seconds: seq<real>, weights: seq<real>) returns (ranges: seq<Range>)
    requires NonNegative(seconds) && (weights == [] || Priceable(weights))
    ensures Consecutive(ranges, |seconds|) && InRange(ranges, |seconds|)
    ensures |ranges| == if weights == [] then 1 else |weights|
    ensures weights != [] ==> InProportion(seconds, weights, ranges)
    ensures weights != [] ==> CutsNearest(seconds, weights, ranges, |weights| - 1)
  {
    hide CutsNearest, Distance, Running, Target, LargestItem, RangeSum, InProportion, Priceable, IsNearest;
    ranges := [];
    var start: nat := 0;
    if weights != [] {
      NothingCut(seconds, weights);
      assert CutsNearest(seconds, weights, ranges, 0) by { NoCuts(seconds, weights); }
      for k := 0 to |weights| - 1
        invariant |ranges| == k && Consecutive(ranges, start) && InRange(ranges, |seconds|) && start <= |seconds|
        invariant InProportion(seconds, weights, ranges) && CutsNearest(seconds, weights, ranges, k)
        invariant Distance(Running(seconds, start), Target(seconds, weights, k)) <= LargestItem(seconds) / 2.0
      {
        var target := Target(seconds, weights, k + 1);
        TargetsRise(seconds, weights, k);
        var stop := Nearest(seconds, start, target);
        StopIsLater(seconds, start, target, stop);
        CutWithinHalf(seconds, start, Target(seconds, weights, k), target, stop);
        SliceInProportion(seconds, start, stop, Target(seconds, weights, k), target);
        ProportionGrows(seconds, weights, ranges, (start, stop));
        OneCutMore(seconds, weights, ranges, (start, stop), k);
        ranges := ranges + [(start, stop)];
        start := stop;
      }
      TargetsRise(seconds, weights, |weights| - 1);
      AtItself(seconds);
      SliceInProportion(seconds, start, |seconds|, Target(seconds, weights, |weights| - 1),
                        Running(seconds, |seconds|));
      ProportionGrows(seconds, weights, ranges, (start, |seconds|));
      LastRangeIsNoCut(seconds, weights, ranges, (start, |seconds|), |weights| - 1);
    }
    ranges := ranges + [(start, |seconds|)];
  }

  lemma NothingCut(seconds: seq<real>, weights: seq<real>)
    requires NonNegative(seconds) && weights != [] && Priceable(weights)
    ensures Whole(weights) != 0.0 && InProportion(seconds, weights, [])
    ensures Distance(Running(seconds, 0), Target(seconds, weights, 0)) <= LargestItem(seconds) / 2.0
  {
    LargestIsLargest(seconds);
    TargetsRise(seconds, weights, 0);
  }

  lemma AtItself(seconds: seq<real>)
    ensures Distance(Running(seconds, |seconds|), Running(seconds, |seconds|)) <= LargestItem(seconds) / 2.0
  {
    LargestIsLargest(seconds);
  }

  lemma StopIsLater(seconds: seq<real>, start: nat, target: real, stop: nat)
    requires IsNearest(seconds, start, target, stop)
    ensures start <= stop <= |seconds|
  {
  }

  lemma ProportionGrows(seconds: seq<real>, weights: seq<real>, ranges: seq<Range>, next: Range)
    requires |ranges| < |weights| && Whole(weights) != 0.0 && InRange(ranges, |seconds|)
    requires InProportion(seconds, weights, ranges) && next.0 <= next.1 <= |seconds|
    requires Distance(Running(seconds, next.1), Target(seconds, weights, |ranges| + 1)) <= LargestItem(seconds) / 2.0
    requires Distance(RangeSum(seconds, next.0, next.1),
                      Target(seconds, weights, |ranges| + 1) - Target(seconds, weights, |ranges|))
             <= LargestItem(seconds)
    ensures InRange(ranges + [next], |seconds|) && InProportion(seconds, weights, ranges + [next])
  {
    hide Distance, Target, LargestItem, RangeSum, Whole, Running;
  }
}
