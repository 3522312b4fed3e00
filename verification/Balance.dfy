/** Refilling the shards of a round heaviest item first, so that no straggler decides the round's wall. */
module Balance {
  import opened Bins
  import opened Shards
  import opened Sums

  predicate Ascends(order: seq<nat>) {
    forall a, b :: 0 <= a < b < |order| ==> order[a] <= order[b]
  }

  lemma AppendAscends(order: seq<nat>, last: nat)
    requires Ascends(order) && forall k :: 0 <= k < |order| ==> order[k] <= last
    ensures Ascends(order + [last])
  {
  }

  lemma InsertedBelow(r: seq<nat>, front: seq<nat>, member: nat, last: nat)
    requires multiset(r) == multiset(front) + multiset{member} && member <= last
    requires forall k :: 0 <= k < |front| ==> front[k] <= last
    ensures forall k :: 0 <= k < |r| ==> r[k] <= last
  {
    SameMembers(r, front + [member]);
    assert forall k :: 0 <= k < |r| ==> r[k] in r;
  }

  /** The members of a bin back in the items' own order. */
  function Inserted(member: nat, order: seq<nat>): (r: seq<nat>)
    requires Ascends(order)
    ensures Ascends(r) && multiset(r) == multiset(order) + multiset{member}
  {
    if order == [] then [member]
    else
      var front, last := order[..|order| - 1], order[|order| - 1];
      assert order == front + [last];
      if last <= member then
        AppendAscends(order, member);
        order + [member]
      else
        var r := Inserted(member, front);
        InsertedBelow(r, front, member, last);
        AppendAscends(r, last);
        r + [last]
  }

  function Sorted(bin: seq<nat>): (r: seq<nat>)
    ensures Ascends(r) && multiset(r) == multiset(bin)
  {
    if bin == [] then []
    else
      var front, last := bin[..|bin| - 1], bin[|bin| - 1];
      assert bin == front + [last];
      Inserted(last, Sorted(front))
  }

  /** The bins laid end to end, and the range each then takes. */
  function Laid(bins: seq<seq<nat>>): seq<nat> {
    if bins == [] then [] else Laid(bins[..|bins| - 1]) + Sorted(bins[|bins| - 1])
  }

  function Ranges(bins: seq<seq<nat>>): (ranges: seq<Range>)
    ensures |ranges| == |bins|
  {
    if bins == [] then [] else Ranges(bins[..|bins| - 1]) + [(|Laid(bins[..|bins| - 1])|, |Laid(bins)|)]
  }

  /** The items' seconds in a given order. */
  function Picked(seconds: seq<real>, order: seq<nat>): (picked: seq<real>)
    ensures |picked| == |order|
  {
    seq(|order|, k requires 0 <= k < |order| => Cost(seconds)(order[k]))
  }

  function Largest(loads: seq<real>): real {
    if loads == [] then 0.0 else Larger(Largest(loads[..|loads| - 1]), loads[|loads| - 1])
  }

  function Refilled(seconds: seq<real>, m: nat): seq<seq<nat>>
    requires m > 0
  {
    Filled(Cost(seconds), Jobs(Cost(seconds), |seconds|), m)
  }

  /** What is kept: the refilled shards where their slowest is strictly faster, and otherwise the given ones. */
  function Balanced(seconds: seq<real>, shards: seq<Range>): (seq<nat>, seq<Range>)
    requires InRange(shards, |seconds|)
  {
    if shards == [] || Largest(Loads(Cost(seconds), Refilled(seconds, |shards|))) >= Slowest(seconds, shards) then
      (Indices(|seconds|), shards)
    else
      (Laid(Refilled(seconds, |shards|)), Ranges(Refilled(seconds, |shards|)))
  }

  method Balance(seconds: seq<real>, shards: seq<Range>) returns (order: seq<nat>, ranges: seq<Range>)
    requires NonNegative(seconds) && InRange(shards, |seconds|) && (shards == [] ==> seconds == [])
    ensures (order, ranges) == Balanced(seconds, shards)
  {
    hide Filled, Jobs, Lightest, Load, Sorted, Slowest, Largest, Laid, Ranges, Loads;
    var slowest := Slowest(seconds, shards);
    var bins := Empty(|shards|);
    var loads := seq(|shards|, _ => 0.0);
    var g, jobs := Cost(seconds), Jobs(Cost(seconds), |seconds|);
    NoJobs(g, jobs, |seconds|, |shards|);
    for k := 0 to |jobs|
      invariant shards != [] ==> bins == Filled(g, jobs[..k], |shards|) && loads == Loads(g, bins)
      invariant |bins| == |loads| == |shards|
    {
      var n := Lightest(loads);
      FilledStep(g, jobs, k, |shards|);
      LoadsStep(g, bins, n, jobs[k]);
      loads := loads[n := loads[n] + g(jobs[k])];
      bins := bins[n := bins[n] + [jobs[k]]];
    }
    assert jobs[..|jobs|] == jobs;
    if bins == [] || Largest(loads) >= slowest {
      return Indices(|seconds|), shards;
    }
    order, ranges := [], [];
    NothingLaid();
    for k := 0 to |bins|
      invariant order == Laid(bins[..k]) && ranges == Ranges(bins[..k])
    {
      LaidStep(bins, k);
      var members := Sorted(bins[k]);
      ranges := ranges + [(|order|, |order| + |members|)];
      order := order + members;
    }
    assert bins[..|bins|] == bins;
  }

  lemma NoJobs(g: nat -> real, jobs: seq<nat>, n: nat, m: nat)
    requires jobs == Jobs(g, n)
    ensures m > 0 ==> Filled(g, jobs[..0], m) == Empty(m)
    ensures Loads(g, Empty(m)) == seq(m, _ => 0.0)
    ensures |jobs| == n
  {
    assert |multiset(jobs)| == |multiset(Indices(n))|;
  }

  lemma FilledStep(g: nat -> real, jobs: seq<nat>, k: nat, m: nat)
    requires k < |jobs| && m > 0
    ensures var bins := Filled(g, jobs[..k], m);
            var n := Lightest(Loads(g, bins));
            Filled(g, jobs[..k + 1], m) == bins[n := bins[n] + [jobs[k]]]
  {
    hide Lightest, Loads;
    assert jobs[..k + 1][..k] == jobs[..k];
  }

  lemma LoadsStep(g: nat -> real, bins: seq<seq<nat>>, n: nat, job: nat)
    requires n < |bins|
    ensures Loads(g, bins[n := bins[n] + [job]]) == Loads(g, bins)[n := Loads(g, bins)[n] + g(job)]
  {
    LoadGrows(g, bins[n], job);
  }

  lemma NothingLaid()
    ensures Laid([]) == [] && Ranges([]) == []
  {
  }

  lemma LaidStep(bins: seq<seq<nat>>, k: nat)
    requires k < |bins|
    ensures Laid(bins[..k + 1]) == Laid(bins[..k]) + Sorted(bins[k])
    ensures Ranges(bins[..k + 1]) == Ranges(bins[..k]) + [(|Laid(bins[..k])|, |Laid(bins[..k + 1])|)]
  {
    hide Sorted;
    assert bins[..k + 1][..k] == bins[..k];
  }

  // ----- nothing is lost

  function Together(bins: seq<seq<nat>>): multiset<nat> {
    if bins == [] then multiset{} else Together(bins[..|bins| - 1]) + multiset(bins[|bins| - 1])
  }

  lemma {:induction false} TogetherGrows(bins: seq<seq<nat>>, n: nat, job: nat)
    requires n < |bins|
    ensures Together(bins[n := bins[n] + [job]]) == Together(bins) + multiset{job}
  {
    var after, last := bins[n := bins[n] + [job]], |bins| - 1;
    if n == last {
      assert after[..last] == bins[..last];
    } else {
      TogetherGrows(bins[..last], n, job);
      assert after[..last] == bins[..last][n := bins[n] + [job]];
    }
  }

  lemma {:induction false} TogetherEmpty(m: nat)
    ensures Together(Empty(m)) == multiset{}
  {
    if m > 0 {
      TogetherEmpty(m - 1);
      assert Empty(m)[..m - 1] == Empty(m - 1);
    }
  }

  lemma {:induction false} TogetherFilled(g: nat -> real, jobs: seq<nat>, m: nat)
    requires m > 0
    ensures Together(Filled(g, jobs, m)) == multiset(jobs)
  {
    if jobs == [] {
      TogetherEmpty(m);
    } else {
      var front := jobs[..|jobs| - 1];
      assert jobs == front + [jobs[|jobs| - 1]];
      TogetherFilled(g, front, m);
      var bins := Filled(g, front, m);
      TogetherGrows(bins, Lightest(Loads(g, bins)), jobs[|jobs| - 1]);
    }
  }

  lemma {:induction false} LaidIsTogether(bins: seq<seq<nat>>)
    ensures multiset(Laid(bins)) == Together(bins)
  {
    if bins != [] {
      LaidIsTogether(bins[..|bins| - 1]);
    }
  }

  lemma {:induction false} RangesTile(bins: seq<seq<nat>>)
    ensures Consecutive(Ranges(bins), |Laid(bins)|) && InRange(Ranges(bins), |Laid(bins)|)
  {
    if bins != [] {
      RangesTile(bins[..|bins| - 1]);
    }
  }

  /** The items are permuted, the shards as many as given, and consecutive ranges over all items if the given were. */
  lemma BalancedPermutes(seconds: seq<real>, shards: seq<Range>)
    requires InRange(shards, |seconds|)
    ensures var (order, ranges) := Balanced(seconds, shards);
            && multiset(order) == multiset(Indices(|seconds|)) && |order| == |seconds|
            && |ranges| == |shards| && InRange(ranges, |seconds|)
            && (Consecutive(shards, |seconds|) ==> Consecutive(ranges, |seconds|))
  {
    if shards != [] {
      var bins := Refilled(seconds, |shards|);
      LaidIsTogether(bins);
      TogetherFilled(Cost(seconds), Jobs(Cost(seconds), |seconds|), |shards|);
      RangesTile(bins);
      assert |multiset(Laid(bins))| == |multiset(Indices(|seconds|))|;
    }
  }

  /** Every shard is one bin, its items in their own order. */
  lemma {:induction false} RangesAscend(bins: seq<seq<nat>>, k: nat)
    requires k < |bins|
    ensures var r := Ranges(bins)[k]; r.0 <= r.1 <= |Laid(bins)| && Laid(bins)[r.0..r.1] == Sorted(bins[k])
  {
    hide Sorted;
    var before := bins[..|bins| - 1];
    if k < |before| {
      RangesAscend(before, k);
      var r := Ranges(before)[k];
      assert Laid(bins)[r.0..r.1] == Laid(before)[r.0..r.1];
    }
  }

  // ----- never slower

  lemma {:induction false} RangeIsSum(seconds: seq<real>, order: seq<nat>, a: nat, b: nat)
    requires a <= b <= |order|
    ensures RangeSum(Picked(seconds, order), a, b) == Sum(order[a..b], Cost(seconds))
    decreases b
  {
    if a < b {
      RangeIsSum(seconds, order, a, b - 1);
      assert order[a..b][..b - 1 - a] == order[a..b - 1];
    }
  }

  lemma SliceOf(order: seq<nat>, before: seq<nat>, end: seq<nat>)
    requires before + end <= order
    ensures order[|before|..|before + end|] == end
  {
    assert order[..|before + end|] == before + end;
    assert order[|before|..|before + end|] == (before + end)[|before|..];
  }

  /** The range a bin takes in the order takes what the bin holds. */
  lemma BinRange(seconds: seq<real>, order: seq<nat>, before: seq<nat>, bin: seq<nat>)
    requires before + Sorted(bin) <= order
    ensures RangeSum(Picked(seconds, order), |before|, |before + Sorted(bin)|) == Load(Cost(seconds), bin)
  {
    hide Sorted, Sum, RangeSum, Picked, Cost;
    SliceOf(order, before, Sorted(bin));
    RangeIsSum(seconds, order, |before|, |before + Sorted(bin)|);
    SumPermuted(Sorted(bin), bin, Cost(seconds));
  }

  lemma FrontIsPrefix(bins: seq<seq<nat>>, order: seq<nat>)
    requires bins != [] && Laid(bins) <= order
    ensures Laid(bins[..|bins| - 1]) <= order
    ensures Laid(bins) == Laid(bins[..|bins| - 1]) + Sorted(bins[|bins| - 1])
    ensures Ranges(bins)[..|bins| - 1] == Ranges(bins[..|bins| - 1])
    ensures Ranges(bins)[|bins| - 1] == (|Laid(bins[..|bins| - 1])|, |Laid(bins)|)
  {
    hide Sorted;
  }

  lemma LoadsFront(g: nat -> real, bins: seq<seq<nat>>)
    requires bins != []
    ensures Loads(g, bins)[..|bins| - 1] == Loads(g, bins[..|bins| - 1])
    ensures Loads(g, bins)[|bins| - 1] == Load(g, bins[|bins| - 1])
  {
  }

  /** The shards laid from bins take what the bins hold. */
  lemma {:induction false} LaidLoads(seconds: seq<real>, bins: seq<seq<nat>>, order: seq<nat>)
    requires Laid(bins) <= order
    ensures InRange(Ranges(bins), |order|)
    ensures Slowest(Picked(seconds, order), Ranges(bins)) == Largest(Loads(Cost(seconds), bins))
  {
    hide Loads, Load, Laid, Ranges, RangeSum, Picked, Sorted;
    if bins != [] {
      FrontIsPrefix(bins, order);
      LaidLoads(seconds, bins[..|bins| - 1], order);
      LoadsFront(Cost(seconds), bins);
      BinRange(seconds, order, Laid(bins[..|bins| - 1]), bins[|bins| - 1]);
    }
  }

  /** What comes out: the refill's loads are its shards', the input's shards take what they took. */
  lemma Outcome(seconds: seq<real>, shards: seq<Range>)
    requires InRange(shards, |seconds|)
    ensures Picked(seconds, Indices(|seconds|)) == seconds
    ensures shards != [] ==>
            var bins := Refilled(seconds, |shards|);
            && InRange(Ranges(bins), |Laid(bins)|)
            && Slowest(Picked(seconds, Laid(bins)), Ranges(bins)) == Largest(Loads(Cost(seconds), bins))
  {
    hide Refilled, Slowest, Largest, Loads, Laid, Ranges;
    if shards != [] {
      LaidLoads(seconds, Refilled(seconds, |shards|), Laid(Refilled(seconds, |shards|)));
    }
    PickedInOrder(seconds);
  }

  lemma PickedInOrder(seconds: seq<real>)
    ensures Picked(seconds, Indices(|seconds|)) == seconds
  {
    var order := Indices(|seconds|);
    assert forall k :: 0 <= k < |seconds| ==> order[k] == k && Cost(seconds)(order[k]) == seconds[k];
  }

  /** The refill is never slower: faster, or the input itself. */
  lemma NeverSlower(seconds: seq<real>, shards: seq<Range>)
    requires InRange(shards, |seconds|)
    ensures var (order, ranges) := Balanced(seconds, shards);
            && InRange(ranges, |order|)
            && ((order, ranges) == (Indices(|seconds|), shards)
                || Slowest(Picked(seconds, order), ranges) < Slowest(seconds, shards))
            && Slowest(Picked(seconds, order), ranges) <= Slowest(seconds, shards)
  {
    hide Refilled, Slowest, Largest, Loads, Laid, Ranges, Picked;
    Outcome(seconds, shards);
  }

  // ----- never far from best

  lemma {:induction false} LargestWithin(loads: seq<real>, most: real)
    requires most >= 0.0 && forall b :: 0 <= b < |loads| ==> loads[b] <= most
    ensures Largest(loads) <= most
  {
    if loads != [] {
      LargestWithin(loads[..|loads| - 1], most);
    }
  }

  /** What comes out is no slower than the refill, also where the input was kept. */
  lemma AtMostTheRefill(seconds: seq<real>, shards: seq<Range>)
    requires InRange(shards, |seconds|) && shards != []
    ensures var (order, ranges) := Balanced(seconds, shards);
            && InRange(ranges, |order|)
            && Slowest(Picked(seconds, order), ranges) <= Largest(Loads(Cost(seconds), Refilled(seconds, |shards|)))
  {
    hide Refilled, Slowest, Largest, Loads, Laid, Ranges, Picked;
    Outcome(seconds, shards);
  }

  /** `binOf` assigns the items to `m` shards, none of them slower than `most`. */
  ghost predicate Assigns(seconds: seq<real>, m: nat, binOf: nat -> nat, most: real) {
    Holds(Cost(seconds), Indices(|seconds|), m, binOf, most)
  }

  lemma {:induction false} GivenIsSum(g: nat -> real, jobs: seq<nat>, binOf: nat -> nat, b: nat)
    ensures Given(g, jobs, binOf, b) == Sum(jobs, (i: nat) => if binOf(i) == b then g(i) else 0.0)
  {
    if jobs != [] {
      GivenIsSum(g, jobs[..|jobs| - 1], binOf, b);
    }
  }

  lemma HoldsInAnyOrder(g: nat -> real, one: seq<nat>, other: seq<nat>, m: nat, binOf: nat -> nat, most: real)
    requires multiset(one) == multiset(other) && Holds(g, one, m, binOf, most)
    ensures Holds(g, other, m, binOf, most)
  {
    SameMembers(one, other);
    forall b: nat | b < m
      ensures Given(g, other, binOf, b) <= most
    {
      GivenIsSum(g, one, binOf, b);
      GivenIsSum(g, other, binOf, b);
      SumPermuted(one, other, (i: nat) => if binOf(i) == b then g(i) else 0.0);
      assert Given(g, one, binOf, b) <= most;
    }
  }

  lemma RefillWithinFourThirds(seconds: seq<real>, m: nat, binOf: nat -> nat, most: real)
    requires NonNegative(seconds) && m > 0 && Assigns(seconds, m, binOf, most)
    ensures Largest(Loads(Cost(seconds), Refilled(seconds, m))) <= Allowed(m as real, most)
  {
    hide Filled, Load, Holds, Largest, Allowed, Jobs;
    var g := Cost(seconds);
    var jobs := Jobs(g, |seconds|);
    HoldsInAnyOrder(g, Indices(|seconds|), jobs, m, binOf, most);
    HoldsIsNonNegative(g, jobs, m, binOf, most);
    var loads := Loads(g, Refilled(seconds, m));
    forall b | 0 <= b < |loads|
      ensures loads[b] <= Allowed(m as real, most)
    {
      LoadsWithinFourThirds(g, jobs, m, binOf, most, b);
      AtMostAllowed(m as real, loads[b], most);
    }
    AllowedIsNonNegative(m as real, most);
    LargestWithin(loads, Allowed(m as real, most));
  }

  /** Four thirds of `most`, less a third of it shared among the shards. */
  function Allowed(m: real, most: real): real
    requires m > 0.0
  {
    (4.0 / 3.0 - 1.0 / (3.0 * m)) * most
  }

  lemma AllowedTimes(m: real, most: real)
    requires m > 0.0
    ensures 3.0 * m * Allowed(m, most) == (4.0 * m - 1.0) * most
  {
    var third := 1.0 / (3.0 * m);
    assert third * (3.0 * m) == 1.0;
    assert 3.0 * m * (4.0 / 3.0 - third) == 4.0 * m - 1.0;
  }

  lemma AtMostAllowed(m: real, load: real, most: real)
    requires m > 0.0 && 3.0 * m * load <= (4.0 * m - 1.0) * most
    ensures load <= Allowed(m, most)
  {
    hide Allowed;
    AllowedTimes(m, most);
    assert 3.0 * m * (Allowed(m, most) - load) >= 0.0;
  }

  lemma AllowedIsNonNegative(m: real, most: real)
    requires m >= 1.0 && most >= 0.0
    ensures Allowed(m, most) >= 0.0
  {
    BoundIsNonNegative(m, most);
    AtMostAllowed(m, 0.0, most);
  }

  /** WITHIN FOUR THIRDS OF BEST: whatever assignment of the items to as many shards stays within `most`, the shards
      that come out stay within 4/3 - 1/3m of it. */
  lemma WithinFourThirds(seconds: seq<real>, shards: seq<Range>, binOf: nat -> nat, most: real)
    requires NonNegative(seconds) && InRange(shards, |seconds|) && shards != []
    requires Assigns(seconds, |shards|, binOf, most)
    ensures var (order, ranges) := Balanced(seconds, shards);
            && InRange(ranges, |order|)
            && Slowest(Picked(seconds, order), ranges) <= Allowed(|shards| as real, most)
  {
    hide Refilled, Slowest, Largest, Loads, Laid, Ranges, Picked, Assigns, Allowed, Balanced;
    RefillWithinFourThirds(seconds, |shards|, binOf, most);
    AtMostTheRefill(seconds, shards);
  }

  // ----- no shard is empty

  /** While a bin is empty no bin holds two jobs. */
  lemma {:induction false} EmptyFirst(g: nat -> real, jobs: seq<nat>, m: nat, e: nat, b: nat)
    requires e < m && b < m && (forall k :: 0 <= k < |jobs| ==> g(jobs[k]) > 0.0)
    requires Filled(g, jobs, m)[e] == []
    ensures |Filled(g, jobs, m)[b]| <= 1
  {
    if jobs != [] {
      var front := jobs[..|jobs| - 1];
      var bins := Filled(g, front, m);
      var loads := Loads(g, bins);
      var n := Lightest(loads);
      EmptyFirst(g, front, m, e, b);
      if b == n {
        assert loads[n] <= loads[e] == 0.0;
        FilledFrom(g, front, m, n);
      }
    }
  }

  /** What a bin holds is among the jobs, so it costs something. */
  lemma {:induction false} FilledFrom(g: nat -> real, jobs: seq<nat>, m: nat, b: nat)
    requires b < m && (forall k :: 0 <= k < |jobs| ==> g(jobs[k]) > 0.0)
    ensures Load(g, Filled(g, jobs, m)[b]) >= 0.0
    ensures Filled(g, jobs, m)[b] != [] ==> Load(g, Filled(g, jobs, m)[b]) > 0.0
  {
    if jobs != [] {
      var front := jobs[..|jobs| - 1];
      var bins := Filled(g, front, m);
      FilledFrom(g, front, m, b);
      LoadGrows(g, bins[Lightest(Loads(g, bins))], jobs[|jobs| - 1]);
    }
  }

  lemma LaidSize(bins: seq<seq<nat>>)
    requires bins != []
    ensures |Laid(bins)| == |Laid(bins[..|bins| - 1])| + |bins[|bins| - 1]|
  {
    var last := bins[|bins| - 1];
    assert |multiset(Sorted(last))| == |multiset(last)|;
  }

  lemma {:induction false} CountAtMost(bins: seq<seq<nat>>)
    requires forall b :: 0 <= b < |bins| ==> |bins[b]| <= 1
    ensures |Laid(bins)| <= |bins|
  {
    if bins == [] {
      assert Laid(bins) == [];
    } else {
      hide Laid, Sorted;
      CountAtMost(bins[..|bins| - 1]);
      LaidSize(bins);
    }
  }

  lemma {:induction false} CountLess(bins: seq<seq<nat>>, empty: nat)
    requires forall b :: 0 <= b < |bins| ==> |bins[b]| <= 1
    requires empty < |bins| && bins[empty] == []
    ensures |Laid(bins)| < |bins|
  {
    hide Laid, Sorted;
    var front := bins[..|bins| - 1];
    LaidSize(bins);
    if empty < |front| {
      assert front[empty] == bins[empty];
      CountLess(front, empty);
    } else {
      CountAtMost(front);
    }
  }

  lemma NoBinIsEmpty(g: nat -> real, jobs: seq<nat>, m: nat, k: nat)
    requires k < m <= |jobs| && (forall i :: 0 <= i < |jobs| ==> g(jobs[i]) > 0.0)
    ensures Filled(g, jobs, m)[k] != []
  {
    hide Filled, Laid;
    var bins := Filled(g, jobs, m);
    AllLaid(g, jobs, m);
    if bins[k] == [] {
      forall b | 0 <= b < |bins|
        ensures |bins[b]| <= 1
      {
        EmptyFirst(g, jobs, m, k, b);
      }
      CountLess(bins, k);
    }
  }

  lemma AllLaid(g: nat -> real, jobs: seq<nat>, m: nat)
    requires m > 0
    ensures |Laid(Filled(g, jobs, m))| == |jobs|
  {
    LaidIsTogether(Filled(g, jobs, m));
    TogetherFilled(g, jobs, m);
    assert |multiset(Laid(Filled(g, jobs, m)))| == |multiset(jobs)|;
  }

  /** With positive estimates and at least as many items as shards, no shard comes out empty. */
  lemma NoShardIsEmpty(seconds: seq<real>, shards: seq<Range>, k: nat)
    requires (forall i :: 0 <= i < |seconds| ==> seconds[i] > 0.0) && InRange(shards, |seconds|)
    requires |shards| <= |seconds| && k < |shards| && shards[k].0 < shards[k].1
    ensures var (_, ranges) := Balanced(seconds, shards);
            |ranges| == |shards| && ranges[k].0 < ranges[k].1
  {
    hide Filled, Laid, Ranges, Sorted, Largest, Loads, Slowest;
    var g, jobs := Cost(seconds), Jobs(Cost(seconds), |seconds|);
    var bins := Refilled(seconds, |shards|);
    BelowAll(jobs, |seconds|);
    assert |multiset(jobs)| == |multiset(Indices(|seconds|))|;
    NoBinIsEmpty(g, jobs, |shards|, k);
    RangesAscend(bins, k);
    assert |multiset(Sorted(bins[k]))| == |multiset(bins[k])|;
  }
}
