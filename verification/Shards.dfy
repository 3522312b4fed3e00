/** Cutting items into consecutive ranges, one for each task of an array, under bounds raised until the cap is met. */
module Shards {
  import opened Options

  type Range = (nat, nat)

  /** The seconds of items `a` to `b`. */
  function RangeSum(seconds: seq<real>, a: nat, b: nat): real
    requires a <= b <= |seconds|
  {
    if a == b then 0.0 else RangeSum(seconds, a, b - 1) + seconds[b - 1]
  }

  predicate NonNegative(seconds: seq<real>) {
    forall i :: 0 <= i < |seconds| ==> seconds[i] >= 0.0
  }

  /** Whether a shard begun at `a` closes before item `i`: it holds enough, or the item would pass the bound. */
  predicate Closes(seconds: seq<real>, low: real, high: real, a: nat, i: nat)
    requires a <= i < |seconds|
  {
    RangeSum(seconds, a, i) >= low || RangeSum(seconds, a, i) + seconds[i] > high
  }

  /** `range` closes at its end and nowhere before, items `a + 1` onward being where it may. */
  predicate Closed(seconds: seq<real>, low: real, high: real, range: Range) {
    && range.0 < range.1 <= |seconds|
    && (forall i :: range.0 < i < range.1 ==> !Closes(seconds, low, high, range.0, i))
    && (range.1 < |seconds| ==> Closes(seconds, low, high, range.0, range.1))
  }

  /** Consecutive ranges from item 0 to item `upto`. */
  predicate Consecutive(shards: seq<Range>, upto: nat) {
    && (forall n :: 0 < n < |shards| ==> shards[n - 1].1 == shards[n].0)
    && (if shards == [] then upto == 0 else shards[0].0 == 0 && shards[|shards| - 1].1 == upto)
  }

  /** THE GREEDY CUT: consecutive non-empty ranges covering the items, each closed as soon as it may be. */
  predicate GreedyCut(seconds: seq<real>, low: real, high: real, shards: seq<Range>) {
    && Consecutive(shards, |seconds|)
    && forall n :: 0 <= n < |shards| ==> Closed(seconds, low, high, shards[n])
  }

  method Pack(seconds: seq<real>, low: real, high: real) returns (shards: seq<Range>)
    ensures seconds == [] ==> shards == [(0, 0)]
    ensures seconds != [] ==> GreedyCut(seconds, low, high, shards) && shards != []
  {
    shards := [];
    var start, held := 0, 0.0;
    for index := 0 to |seconds|
      invariant 0 <= start <= index && (index > 0 ==> start < index)
      invariant held == RangeSum(seconds, start, index)
      invariant Consecutive(shards, start)
      invariant forall n :: 0 <= n < |shards| ==> Closed(seconds, low, high, shards[n])
      invariant forall i :: start < i < index ==> !Closes(seconds, low, high, start, i)
    {
      if index > start && (held >= low || held + seconds[index] > high) {
        shards := shards + [(start, index)];
        start, held := index, 0.0;
      }
      held := held + seconds[index];
    }
    shards := shards + [(start, |seconds|)];
  }

  // ----- what a greedy cut is

  /** What a range closed at its end holds: less than the low bound and at most the high one until its last item, and,
      where items follow, the low bound at its end or more than the high one with the next. */
  predicate HoldsEnough(seconds: seq<real>, low: real, high: real, range: Range) {
    && range.0 < range.1 <= |seconds|
    && (forall i :: range.0 < i < range.1 ==>
          RangeSum(seconds, range.0, i) < low && RangeSum(seconds, range.0, i) + seconds[i] <= high)
    && (range.1 < |seconds| ==>
          low <= RangeSum(seconds, range.0, range.1) ||
          high < RangeSum(seconds, range.0, range.1) + seconds[range.1])
  }

  lemma ClosedExactly(seconds: seq<real>, low: real, high: real, range: Range)
    ensures Closed(seconds, low, high, range) <==> HoldsEnough(seconds, low, high, range)
  {
    hide RangeSum;
    if HoldsEnough(seconds, low, high, range) {
      forall i | range.0 < i < range.1
        ensures !Closes(seconds, low, high, range.0, i)
      {
        assert RangeSum(seconds, range.0, i) < low;
      }
    }
    if Closed(seconds, low, high, range) {
      forall i | range.0 < i < range.1
        ensures RangeSum(seconds, range.0, i) < low && RangeSum(seconds, range.0, i) + seconds[i] <= high
      {
        assert !Closes(seconds, low, high, range.0, i);
      }
    }
  }

  /** A cut is greedy exactly when its ranges follow one another over all items and each holds enough and no more. */
  lemma GreedyCutExactly(seconds: seq<real>, low: real, high: real, shards: seq<Range>)
    ensures GreedyCut(seconds, low, high, shards) <==>
            Consecutive(shards, |seconds|) &&
            forall n :: 0 <= n < |shards| ==> HoldsEnough(seconds, low, high, shards[n])
  {
    hide Closed, HoldsEnough;
    forall n | 0 <= n < |shards| {
      ClosedExactly(seconds, low, high, shards[n]);
    }
  }

  lemma SameStop(seconds: seq<real>, low: real, high: real, a: Range, b: Range)
    requires Closed(seconds, low, high, a) && Closed(seconds, low, high, b) && a.0 == b.0
    ensures a.1 == b.1
  {
  }

  /** The greedy cut is unique: its conditions leave no choice. */
  lemma {:induction false} GreedyCutIsUnique(seconds: seq<real>, low: real, high: real, one: seq<Range>,
                                             other: seq<Range>, k: nat)
    requires GreedyCut(seconds, low, high, one) && GreedyCut(seconds, low, high, other)
    requires k <= |one| && k <= |other|
    ensures one[..k] == other[..k]
  {
    if k > 0 {
      GreedyCutIsUnique(seconds, low, high, one, other, k - 1);
      var a, b := one[k - 1], other[k - 1];
      assert a.0 == b.0 by {
        if k > 1 { assert one[..k - 1][k - 2] == one[k - 2] && other[..k - 1][k - 2] == other[k - 2]; }
      }
      SameStop(seconds, low, high, a, b);
      assert one[..k] == one[..k - 1] + [a] && other[..k] == other[..k - 1] + [b];
    }
  }

  /** A range passes the high bound only when it is a single item. */
  lemma BoundedUnlessAlone(seconds: seq<real>, low: real, high: real, range: Range)
    requires Closed(seconds, low, high, range) && range.1 > range.0 + 1
    ensures RangeSum(seconds, range.0, range.1) <= high
  {
    assert !Closes(seconds, low, high, range.0, range.1 - 1);
  }

  lemma {:induction false} RangeWithin(seconds: seq<real>, a: nat, b: nat)
    requires NonNegative(seconds) && a <= b <= |seconds|
    ensures 0.0 <= RangeSum(seconds, a, b) <= RangeSum(seconds, 0, |seconds|)
    decreases b - a, 0
  {
    RangesAdd(seconds, 0, a, b);
    RangesAdd(seconds, 0, b, |seconds|);
    RangeIsNonNegative(seconds, 0, a);
    RangeIsNonNegative(seconds, a, b);
    RangeIsNonNegative(seconds, b, |seconds|);
  }

  lemma {:induction false} RangeIsNonNegative(seconds: seq<real>, a: nat, b: nat)
    requires NonNegative(seconds) && a <= b <= |seconds|
    ensures RangeSum(seconds, a, b) >= 0.0
    decreases b
  {
    if a < b {
      RangeIsNonNegative(seconds, a, b - 1);
    }
  }

  lemma {:induction false} RangesAdd(seconds: seq<real>, a: nat, b: nat, c: nat)
    requires a <= b <= c <= |seconds|
    ensures RangeSum(seconds, a, c) == RangeSum(seconds, a, b) + RangeSum(seconds, b, c)
    decreases c
  {
    if b < c {
      RangesAdd(seconds, a, b, c - 1);
    }
  }

  /** Once the low bound passes everything there is, one shard holds it all. */
  lemma OneShardAtLast(seconds: seq<real>, low: real, high: real, shards: seq<Range>)
    requires NonNegative(seconds) && GreedyCut(seconds, low, high, shards) && shards != []
    requires low > RangeSum(seconds, 0, |seconds|) && high >= low
    ensures |shards| == 1
  {
    if |shards| > 1 {
      var stop := shards[0].1;
      assert Closed(seconds, low, high, shards[0]) && Closed(seconds, low, high, shards[1]);
      assert Closes(seconds, low, high, 0, stop);
      RangeWithin(seconds, 0, stop);
      RangeWithin(seconds, 0, stop + 1);
    }
  }

  // ----- growing the bounds

  /** The policy's window in minutes and the most tasks one array may hold. */
  datatype Policy = Policy(shardMinutesMin: real, shardMinutesMax: real, maxArray: nat)

  predicate Usable(policy: Policy) {
    0.0 < policy.shardMinutesMin <= policy.shardMinutesMax && policy.maxArray >= 1
  }

  /** The most shards: what one array may hold, and what there is room for. */
  function Cap(policy: Policy, room: Option<nat>): (cap: nat)
    ensures cap <= policy.maxArray && (room.Some? ==> cap <= room.value)
    ensures cap == policy.maxArray || room == Some(cap)
  {
    if room.Some? && room.value < policy.maxArray then room.value else policy.maxArray
  }

  function Grown(bound: real, steps: nat): real {
    if steps == 0 then bound else Grown(bound, steps - 1) * 1.1
  }

  function Larger(a: real, b: real): (c: real)
    ensures c >= a && c >= b && (c == a || c == b)
  {
    if a >= b then a else b
  }

  /** The first low and high bound tried: the policy's window, at least an even share of the whole. */
  function FirstLow(seconds: seq<real>, policy: Policy, cap: nat): (low: real)
    requires cap > 0
    ensures low >= 60.0 * policy.shardMinutesMin && low >= RangeSum(seconds, 0, |seconds|) / cap as real
    ensures low == 60.0 * policy.shardMinutesMin || low == RangeSum(seconds, 0, |seconds|) / cap as real
  {
    Larger(policy.shardMinutesMin * 60.0, RangeSum(seconds, 0, |seconds|) / cap as real)
  }

  function FirstHigh(seconds: seq<real>, policy: Policy, cap: nat): (high: real)
    requires cap > 0
    ensures high >= 60.0 * policy.shardMinutesMax && high >= RangeSum(seconds, 0, |seconds|) / cap as real
    ensures high == 60.0 * policy.shardMinutesMax || high == RangeSum(seconds, 0, |seconds|) / cap as real
  {
    Larger(policy.shardMinutesMax * 60.0, RangeSum(seconds, 0, |seconds|) / cap as real)
  }

  /** Growing by a tenth is at least growing linearly, so any sum is passed in finitely many steps. */
  lemma {:induction false} GrowsLinearly(bound: real, steps: nat)
    requires bound > 0.0
    ensures Grown(bound, steps) >= bound * (1.0 + steps as real / 10.0)
    ensures Grown(bound, steps) > 0.0
  {
    if steps > 0 {
      GrowsLinearly(bound, steps - 1);
      var before := bound * (1.0 + (steps - 1) as real / 10.0);
      assert before >= bound;
      assert before * 1.1 >= before + bound / 10.0;
      assert bound * (1.0 + steps as real / 10.0) == before + bound / 10.0;
    }
  }

  lemma {:induction false} GrownKeepsOrder(low: real, high: real, steps: nat)
    requires 0.0 < low <= high
    ensures Grown(low, steps) <= Grown(high, steps)
  {
    if steps > 0 {
      GrownKeepsOrder(low, high, steps - 1);
    }
  }

  /** Both bounds grow in step, so the high one passes its first by as much as the low one does. */
  lemma {:induction false} GrownInStep(low: real, high: real, steps: nat)
    ensures Grown(high, steps) * low == Grown(low, steps) * high
  {
    if steps > 0 {
      GrownInStep(low, high, steps - 1);
    }
  }

  /** Steps after which a bound starting at `low` has passed `whole`. */
  function Enough(whole: real, low: real): nat {
    if whole < 0.0 || low <= 0.0 then 0 else (10.0 * whole / low).Floor + 1
  }

  lemma EnoughPasses(whole: real, low: real, steps: nat)
    requires low > 0.0 && whole >= 0.0 && steps >= Enough(whole, low)
    ensures Grown(low, steps) > whole
  {
    GrowsLinearly(low, steps);
    var tenths := steps as real / 10.0;
    assert 10.0 * tenths > 10.0 * whole / low;
    Cleared(whole, low, tenths);
    assert low * (1.0 + tenths) == low + low * tenths;
  }

  lemma Cleared(whole: real, low: real, tenths: real)
    requires low > 0.0 && 10.0 * tenths > 10.0 * whole / low
    ensures low * tenths > whole
  {
    var ratio := 10.0 * whole / low;
    assert ratio * low == 10.0 * whole;
    assert (10.0 * tenths - ratio) * low > 0.0;
    assert (10.0 * tenths - ratio) * low == 10.0 * (low * tenths) - ratio * low;
  }

  /** The cut at the first bounds, grown `steps` times, whose shards fit the cap: every cut at fewer steps is too
      long. */
  ghost predicate FirstFitting(seconds: seq<real>, policy: Policy, room: Option<nat>, shards: seq<Range>, steps: nat)
    requires Cap(policy, room) >= 1
  {
    var cap := Cap(policy, room);
    var low, high := FirstLow(seconds, policy, cap), FirstHigh(seconds, policy, cap);
    && 0 < |shards| <= cap
    && GreedyCut(seconds, Grown(low, steps), Grown(high, steps), shards)
    && forall s: nat, cut :: s < steps && GreedyCut(seconds, Grown(low, s), Grown(high, s), cut) ==> |cut| > cap
  }

  /**
   The first cut that fits the cap. The bounds grow only while the low one has not passed the whole, so the last low
   bound is within a tenth above the larger of the first one and the whole.
   */
  ghost predicate Fitting(seconds: seq<real>, policy: Policy, room: Option<nat>, shards: seq<Range>)
    requires Cap(policy, room) >= 1
  {
    var whole, low := RangeSum(seconds, 0, |seconds|), FirstLow(seconds, policy, Cap(policy, room));
    exists steps: nat :: FirstFitting(seconds, policy, room, shards, steps)
                         && Grown(low, steps) <= 1.1 * Larger(low, whole) && steps <= Enough(whole, low)
  }

  /** The bounds grow until the array fits. */
  method CutShards(seconds: seq<real>, policy: Policy, room: Option<nat>) returns (shards: seq<Range>)
    requires Usable(policy) && NonNegative(seconds) && seconds != [] && Cap(policy, room) >= 1
    ensures Fitting(seconds, policy, room, shards)
  {
    var cap := Cap(policy, room);
    var low, high := FirstLow(seconds, policy, cap), FirstHigh(seconds, policy, cap);
    ghost var low0, high0, whole := low, high, RangeSum(seconds, 0, |seconds|);
    RangeIsNonNegative(seconds, 0, |seconds|);
    ghost var steps: nat := 0;
    shards := Pack(seconds, low, high);
    while |shards| > cap
      invariant low == Grown(low0, steps) && high == Grown(high0, steps)
      invariant shards != [] && GreedyCut(seconds, low, high, shards)
      invariant forall s: nat, cut :: s < steps && GreedyCut(seconds, Grown(low0, s), Grown(high0, s), cut) ==>
                |cut| > cap
      invariant low <= 1.1 * Larger(low0, whole) && steps <= Enough(whole, low0)
      decreases Enough(whole, low0) - steps
    {
      assert low <= whole by {
        GrownKeepsOrder(low0, high0, steps);
        if low > whole { OneShardAtLast(seconds, low, high, shards); }
      }
      assert steps < Enough(whole, low0) by {
        if steps == Enough(whole, low0) { EnoughPasses(whole, low0, steps); }
      }
      forall cut | GreedyCut(seconds, low, high, cut)
        ensures |cut| > cap
      {
        if |cut| <= |shards| { SameCut(seconds, low, high, shards, cut); }
      }
      low, high := low * 1.1, high * 1.1;
      steps := steps + 1;
      shards := Pack(seconds, low, high);
    }
    assert FirstFitting(seconds, policy, room, shards, steps);
  }

  lemma OnlyTheLastEnds(seconds: seq<real>, low: real, high: real, cut: seq<Range>, k: nat)
    requires GreedyCut(seconds, low, high, cut) && k < |cut|
    ensures k + 1 < |cut| ==> cut[k].1 < |seconds|
  {
    if k + 1 < |cut| {
      assert Closed(seconds, low, high, cut[k + 1]);
    }
  }

  lemma SameCut(seconds: seq<real>, low: real, high: real, one: seq<Range>, other: seq<Range>)
    requires seconds != [] && GreedyCut(seconds, low, high, one) && GreedyCut(seconds, low, high, other)
    requires |other| <= |one|
    ensures one == other
  {
    GreedyCutIsUnique(seconds, low, high, one, other, |other|);
    var last := |other| - 1;
    assert one[..|other|][last] == one[last] && other[..|other|][last] == other[last];
    OnlyTheLastEnds(seconds, low, high, one, last);
    assert one[..|one|] == one && other[..|other|] == other;
  }

  predicate InRange(shards: seq<Range>, n: nat) {
    forall k :: 0 <= k < |shards| ==> shards[k].0 <= shards[k].1 <= n
  }

  /** The seconds of the slowest shard, 0 of none. */
  function Slowest(seconds: seq<real>, shards: seq<Range>): real
    requires InRange(shards, |seconds|)
  {
    if shards == [] then 0.0
    else
      var last := |shards| - 1;
      Larger(Slowest(seconds, shards[..last]), RangeSum(seconds, shards[last].0, shards[last].1))
  }

  // ----- one wave

  function Ceiling(x: real): int {
    -((-x).Floor)
  }

  /** The slowest shard's seconds, in whole minutes. */
  function Wall(seconds: seq<real>, shards: seq<Range>): nat
    requires InRange(shards, |seconds|)
  {
    if Ceiling(Slowest(seconds, shards) / 60.0) > 1 then Ceiling(Slowest(seconds, shards) / 60.0) else 1
  }

  lemma GreedyIsInRange(seconds: seq<real>, low: real, high: real, shards: seq<Range>)
    requires GreedyCut(seconds, low, high, shards)
    ensures InRange(shards, |seconds|)
  {
    forall k | 0 <= k < |shards|
      ensures shards[k].0 <= shards[k].1 <= |seconds|
    {
      assert Closed(seconds, low, high, shards[k]);
    }
  }

  lemma {:induction false} RangeUnderSlowest(seconds: seq<real>, shards: seq<Range>, k: nat)
    requires InRange(shards, |seconds|) && k < |shards|
    ensures RangeSum(seconds, shards[k].0, shards[k].1) <= Slowest(seconds, shards)
  {
    if k < |shards| - 1 {
      RangeUnderSlowest(seconds, shards[..|shards| - 1], k);
    }
  }

  lemma {:induction false} SlowestIsWithin(seconds: seq<real>, shards: seq<Range>, most: real)
    requires InRange(shards, |seconds|) && most >= 0.0
    requires forall k :: 0 <= k < |shards| ==> RangeSum(seconds, shards[k].0, shards[k].1) <= most
    ensures Slowest(seconds, shards) <= most
  {
    if shards != [] {
      SlowestIsWithin(seconds, shards[..|shards| - 1], most);
    }
  }

  /** The wall is the least whole minutes, at least one, in which every shard ends. */
  lemma WallHoldsExactly(seconds: seq<real>, shards: seq<Range>, minutes: nat)
    requires InRange(shards, |seconds|) && minutes >= 1
    ensures minutes >= Wall(seconds, shards) <==>
            forall k :: 0 <= k < |shards| ==> RangeSum(seconds, shards[k].0, shards[k].1) <= 60.0 * minutes as real
  {
    if minutes >= Wall(seconds, shards) {
      forall k | 0 <= k < |shards|
        ensures RangeSum(seconds, shards[k].0, shards[k].1) <= 60.0 * minutes as real
      {
        RangeUnderSlowest(seconds, shards, k);
      }
    } else if forall k :: 0 <= k < |shards| ==> RangeSum(seconds, shards[k].0, shards[k].1) <= 60.0 * minutes as real {
      SlowestIsWithin(seconds, shards, 60.0 * minutes as real);
    }
  }

  /** Shards no more than run at once, so that the makespan is the wall; more only when that wall passes the ceiling. */
  method OneWave(padded: seq<real>, policy: Policy, room: Option<nat>, atOnce: nat, ceiling: Option<real>)
    returns (shards: seq<Range>, wall: nat)
    requires Usable(policy) && NonNegative(padded) && padded != [] && atOnce >= 1 && (room.Some? ==> room.value >= 1)
    ensures exists first :: Fitting(padded, policy, Some(AtMost(room, atOnce)), first) && InRange(first, |padded|)
                            && if ceiling.Some? && Wall(padded, first) as real > ceiling.value
                               then Fitting(padded, policy, room, shards)
                               else shards == first && |shards| <= atOnce
    ensures InRange(shards, |padded|) && wall == Wall(padded, shards)
  {
    hide Wall, Fitting;
    var first := CutShards(padded, policy, Some(AtMost(room, atOnce)));
    FittingIsInRange(padded, policy, Some(AtMost(room, atOnce)), first);
    shards := first;
    if ceiling.Some? && Wall(padded, shards) as real > ceiling.value {
      shards := CutShards(padded, policy, room);
      FittingIsInRange(padded, policy, room, shards);
    }
    wall := Wall(padded, shards);
  }

  function AtMost(room: Option<nat>, atOnce: nat): (most: nat)
    ensures most <= atOnce && (room.Some? ==> most <= room.value) && (most == atOnce || room == Some(most))
  {
    if room.Some? && room.value < atOnce then room.value else atOnce
  }

  lemma FittingIsInRange(seconds: seq<real>, policy: Policy, room: Option<nat>, shards: seq<Range>)
    requires Cap(policy, room) >= 1 && Fitting(seconds, policy, room, shards)
    ensures InRange(shards, |seconds|) && 0 < |shards| <= Cap(policy, room)
  {
    hide GreedyCut, Grown;
    var steps: nat :| FirstFitting(seconds, policy, room, shards, steps);
    var cap := Cap(policy, room);
    GreedyIsInRange(seconds, Grown(FirstLow(seconds, policy, cap), steps),
                    Grown(FirstHigh(seconds, policy, cap), steps), shards);
  }
}
