/** Longest processing time first: items put heaviest first into the lightest bin, and how far from best that is. */
module Bins {
  import opened Sums

  // ----- the items, heaviest first

  function Cost(seconds: seq<real>): nat -> real {
    (i: nat) => if i < |seconds| then seconds[i] else 0.0
  }

  function Indices(n: nat): seq<nat> {
    seq(n, (i: nat) => i)
  }

  /** Heaviest first, items of one cost in their own order. */
  predicate HeaviestFirst(g: nat -> real, jobs: seq<nat>) {
    forall a, b :: 0 <= a < b < |jobs| ==>
      g(jobs[a]) > g(jobs[b]) || (g(jobs[a]) == g(jobs[b]) && jobs[a] < jobs[b])
  }

  predicate Precedes(g: nat -> real, jobs: seq<nat>, job: nat) {
    forall k :: 0 <= k < |jobs| ==> g(jobs[k]) > g(job) || (g(jobs[k]) == g(job) && jobs[k] < job)
  }

  lemma Appended(g: nat -> real, jobs: seq<nat>, job: nat)
    requires HeaviestFirst(g, jobs) && Precedes(g, jobs, job)
    ensures HeaviestFirst(g, jobs + [job])
  {
  }

  /** A stable insertion: `i`, larger than every item already there, goes behind its equals. */
  function Placed(g: nat -> real, i: nat, jobs: seq<nat>): (r: seq<nat>)
    requires HeaviestFirst(g, jobs) && forall k :: 0 <= k < |jobs| ==> jobs[k] < i
    ensures HeaviestFirst(g, r) && multiset(r) == multiset(jobs) + multiset{i}
  {
    if jobs == [] then [i]
    else
      var front, last := jobs[..|jobs| - 1], jobs[|jobs| - 1];
      assert jobs == front + [last];
      if g(last) >= g(i) then
        Appended(g, jobs, i);
        jobs + [i]
      else
        var r := Placed(g, i, front);
        SameMembers(r, front + [i]);
        assert forall k :: 0 <= k < |r| ==> r[k] in r;
        Appended(g, r, last);
        r + [last]
  }

  lemma SameMembers(xs: seq<nat>, ys: seq<nat>)
    requires multiset(xs) == multiset(ys)
    ensures forall x :: x in xs <==> x in ys
  {
    forall x ensures x in xs <==> x in ys {
      assert x in multiset(xs) <==> x in multiset(ys);
    }
  }

  lemma IndicesGrow(n: nat)
    ensures multiset(Indices(n + 1)) == multiset(Indices(n)) + multiset{n}
    ensures forall i :: i in Indices(n) ==> i < n
  {
    assert Indices(n + 1) == Indices(n) + [n];
  }

  function Jobs(g: nat -> real, n: nat): (jobs: seq<nat>)
    ensures HeaviestFirst(g, jobs) && multiset(jobs) == multiset(Indices(n))
  {
    if n == 0 then
      assert Indices(0) == [];
      []
    else
      var before := Jobs(g, n - 1);
      BelowAll(before, n - 1);
      var r := Placed(g, n - 1, before);
      OneIndexMore(before, r, n - 1);
      r
  }

  lemma OneIndexMore(before: seq<nat>, after: seq<nat>, n: nat)
    requires multiset(before) == multiset(Indices(n)) && multiset(after) == multiset(before) + multiset{n}
    ensures multiset(after) == multiset(Indices(n + 1))
  {
    IndicesGrow(n);
  }

  lemma BelowAll(jobs: seq<nat>, n: nat)
    requires multiset(jobs) == multiset(Indices(n))
    ensures forall k :: 0 <= k < |jobs| ==> jobs[k] < n
  {
    IndicesGrow(n);
    SameMembers(jobs, Indices(n));
    assert forall k :: 0 <= k < |jobs| ==> jobs[k] in jobs;
  }

  // ----- the bins

  function Load(g: nat -> real, bin: seq<nat>): real {
    Sum(bin, g)
  }

  function Loads(g: nat -> real, bins: seq<seq<nat>>): (loads: seq<real>)
    ensures |loads| == |bins|
  {
    seq(|bins|, b requires 0 <= b < |bins| => Load(g, bins[b]))
  }

  /** What the heap of loads yields: the least load, the first bin among equals. */
  function Lightest(loads: seq<real>): (n: nat)
    requires loads != []
    ensures n < |loads| && forall b :: 0 <= b < |loads| ==> loads[b] >= loads[n] && (b < n ==> loads[b] > loads[n])
  {
    var last := |loads| - 1;
    if last == 0 then 0
    else
      var n := Lightest(loads[..last]);
      assert forall b :: 0 <= b < last ==> loads[..last][b] == loads[b];
      if loads[last] < loads[n] then last else n
  }

  function Empty(m: nat): seq<seq<nat>> {
    seq(m, (b: nat) => [])
  }

  function Filled(g: nat -> real, jobs: seq<nat>, m: nat): (bins: seq<seq<nat>>)
    requires m > 0
    ensures |bins| == m
  {
    if jobs == [] then Empty(m)
    else
      var bins := Filled(g, jobs[..|jobs| - 1], m);
      var n := Lightest(Loads(g, bins));
      bins[n := bins[n] + [jobs[|jobs| - 1]]]
  }

  /** The sum of `f` over all the bins. */
  function Across(f: nat -> real, bins: seq<seq<nat>>): real {
    Sum(bins, (bin: seq<nat>) => Sum(bin, f))
  }

  lemma {:induction false} AcrossGrows(f: nat -> real, bins: seq<seq<nat>>, n: nat, job: nat)
    requires n < |bins|
    ensures Across(f, bins[n := bins[n] + [job]]) == Across(f, bins) + f(job)
  {
    var after, last := bins[n := bins[n] + [job]], |bins| - 1;
    if n == last {
      assert after[..last] == bins[..last];
      assert (bins[n] + [job])[..|bins[n]|] == bins[n];
    } else {
      AcrossGrows(f, bins[..last], n, job);
      assert after[..last] == bins[..last][n := bins[n] + [job]];
    }
  }

  lemma {:induction false} AcrossEmpty(f: nat -> real, m: nat)
    ensures Across(f, Empty(m)) == 0.0
  {
    if m > 0 {
      AcrossEmpty(f, m - 1);
      assert Empty(m)[..m - 1] == Empty(m - 1);
    }
  }

  /** Nothing is lost between the jobs and the bins, whatever is summed. */
  lemma {:induction false} AcrossFilled(f: nat -> real, g: nat -> real, jobs: seq<nat>, m: nat)
    requires m > 0
    ensures Across(f, Filled(g, jobs, m)) == Sum(jobs, f)
  {
    if jobs == [] {
      AcrossEmpty(f, m);
    } else {
      var front := jobs[..|jobs| - 1];
      AcrossFilled(f, g, front, m);
      var bins := Filled(g, front, m);
      AcrossGrows(f, bins, Lightest(Loads(g, bins)), jobs[|jobs| - 1]);
    }
  }

  lemma {:induction false} AcrossAtLeast(f: nat -> real, bins: seq<seq<nat>>, least: real)
    requires forall bin :: bin in bins ==> Sum(bin, f) >= least
    ensures Across(f, bins) >= |bins| as real * least
  {
    if bins != [] {
      assert bins[|bins| - 1] in bins;
      AcrossAtLeast(f, bins[..|bins| - 1], least);
      assert |bins| as real * least == (|bins| - 1) as real * least + least;
    }
  }

  // ----- any other assignment of the items

  /** The load `where` puts on bin `b`. */
  function Given(g: nat -> real, jobs: seq<nat>, binOf: nat -> nat, b: nat): real {
    SumIn(jobs, binOf, b, g)
  }

  /** `binOf` puts every job into one of `m` bins, none of them above `most`. */
  ghost predicate Holds(g: nat -> real, jobs: seq<nat>, m: nat, binOf: nat -> nat, most: real) {
    && (forall i :: i in jobs ==> binOf(i) < m)
    && (forall b: nat :: b < m ==> Given(g, jobs, binOf, b) <= most)
  }

  lemma {:induction false} GivenShrinks(g: nat -> real, jobs: seq<nat>, k: nat, binOf: nat -> nat, b: nat)
    requires k <= |jobs| && forall i :: g(i) >= 0.0
    ensures 0.0 <= Given(g, jobs[..k], binOf, b) <= Given(g, jobs, binOf, b)
    decreases |jobs|
  {
    if k < |jobs| {
      GivenShrinks(g, jobs[..|jobs| - 1], k, binOf, b);
      assert jobs[..|jobs| - 1][..k] == jobs[..k];
    } else if k > 0 {
      GivenShrinks(g, jobs[..k - 1], k - 1, binOf, b);
      assert jobs[..k] == jobs && jobs[..k - 1][..k - 1] == jobs[..k - 1];
    } else {
      assert jobs[..k] == jobs;
    }
  }

  lemma HoldsShrinks(g: nat -> real, jobs: seq<nat>, k: nat, m: nat, binOf: nat -> nat, most: real)
    requires k <= |jobs| && (forall i :: g(i) >= 0.0) && Holds(g, jobs, m, binOf, most)
    ensures Holds(g, jobs[..k], m, binOf, most)
  {
    forall b: nat | b < m
      ensures Given(g, jobs[..k], binOf, b) <= most
    {
      GivenShrinks(g, jobs, k, binOf, b);
    }
  }
  lemma {:induction false} OverAtMost(f: nat -> real, jobs: seq<nat>, m: nat, binOf: nat -> nat, most: real)
    requires forall b: nat :: b < m ==> Given(f, jobs, binOf, b) <= most
    ensures SumOver(Indices(m), jobs, binOf, f) <= m as real * most
  {
    if m > 0 {
      OverAtMost(f, jobs, m - 1, binOf, most);
      assert Indices(m)[..m - 1] == Indices(m - 1);
      assert Given(f, jobs, binOf, m - 1) <= most;
      assert m as real * most == (m - 1) as real * most + most;
    }
  }

  /** What any assignment holds in all: at most its fullest bin times the bins. */
  lemma HoldsAtMost(f: nat -> real, jobs: seq<nat>, m: nat, binOf: nat -> nat, most: real)
    requires Holds(f, jobs, m, binOf, most)
    ensures Sum(jobs, f) <= m as real * most
  {
    forall i | i in jobs
      ensures binOf(i) in Indices(m)
    {
      assert Indices(m)[binOf(i)] == binOf(i);
    }
    DoubleCounting(Indices(m), jobs, binOf, f);
    OverAtMost(f, jobs, m, binOf, most);
  }

  // ----- the weights: an item too heavy to be followed by one of cost `p` weighs two

  function Weight(g: nat -> real, room: real): nat -> real {
    (i: nat) => if g(i) > room then 2.0 else 1.0
  }

  /** Above a third of the fullest bin, an assignment never puts more than weight two together. */
  lemma {:induction false} WeightGiven(g: nat -> real, p: real, most: real, jobs: seq<nat>, binOf: nat -> nat,
                                       b: nat)
    requires 3.0 * p > most && p > 0.0 && forall k :: 0 <= k < |jobs| ==> g(jobs[k]) >= p
    ensures var w, s := SumIn(jobs, binOf, b, Weight(g, most - p)), Given(g, jobs, binOf, b);
            || (w == 0.0 && s == 0.0) || (w == 1.0 && s >= p) || (w == 2.0 && s > most - p)
            || (w >= 3.0 && s > most)
  {
    if jobs != [] {
      WeightGiven(g, p, most, jobs[..|jobs| - 1], binOf, b);
    }
  }

  /** A bin loaded above the room weighs at least two. */
  lemma {:induction false} WeightLoaded(g: nat -> real, room: real, bin: seq<nat>)
    requires room >= 0.0
    ensures var w, s := Sum(bin, Weight(g, room)), Load(g, bin);
            (w == 0.0 && s == 0.0) || (w == 1.0 && s <= room) || w >= 2.0
  {
    if bin != [] {
      WeightLoaded(g, room, bin[..|bin| - 1]);
    }
  }

  // ----- the bound

  /** A job above a third of the fullest bin of some assignment lands within that fullest bin. */
  lemma HeavyFits(g: nat -> real, jobs: seq<nat>, m: nat, binOf: nat -> nat, most: real, bins: seq<seq<nat>>,
                  least: real)
    requires jobs != [] && m > 0 && (forall i :: g(i) >= 0.0) && HeaviestFirst(g, jobs)
    requires Holds(g, jobs, m, binOf, most)
    requires bins == Filled(g, jobs[..|jobs| - 1], m) && forall bin :: bin in bins ==> Load(g, bin) >= least
    requires 3.0 * g(jobs[|jobs| - 1]) > most
    ensures least + g(jobs[|jobs| - 1]) <= most
  {
    hide Filled, SumIn, SumOver, Sum;
    var front, last := jobs[..|jobs| - 1], jobs[|jobs| - 1];
    var p := g(last);
    var w := Weight(g, most - p);
    assert last in jobs && binOf(last) < m;
    LastIsGiven(g, jobs, binOf);
    assert Given(g, jobs, binOf, binOf(last)) <= most;
    forall b: nat | b < m
      ensures Given(w, jobs, binOf, b) <= 2.0
    {
      WeightGiven(g, p, most, jobs, binOf, b);
      assert Given(g, jobs, binOf, b) <= most;
    }
    HoldsAtMost(w, jobs, m, binOf, 2.0);
    if least > most - p {
      forall bin | bin in bins
        ensures Sum(bin, w) >= 2.0
      {
        WeightLoaded(g, most - p, bin);
      }
      AcrossAtLeast(w, bins, 2.0);
      AcrossFilled(w, g, front, m);
      SumSplit(w, jobs);
    }
  }

  lemma LastIsGiven(g: nat -> real, jobs: seq<nat>, binOf: nat -> nat)
    requires jobs != [] && forall i :: g(i) >= 0.0
    ensures var last := jobs[|jobs| - 1]; 0.0 <= g(last) <= Given(g, jobs, binOf, binOf(last))
  {
    GivenShrinks(g, jobs, |jobs| - 1, binOf, binOf(jobs[|jobs| - 1]));
  }

  /** Any job lands where, with it, three times the bins exceed no assignment's fullest bin by more than a third. */
  lemma LightFits(g: nat -> real, jobs: seq<nat>, m: nat, binOf: nat -> nat, most: real, bins: seq<seq<nat>>,
                  least: real)
    requires jobs != [] && m > 0 && Holds(g, jobs, m, binOf, most)
    requires bins == Filled(g, jobs[..|jobs| - 1], m) && forall bin :: bin in bins ==> Load(g, bin) >= least
    ensures m as real * least + g(jobs[|jobs| - 1]) <= m as real * most
  {
    hide Filled, Sum, SumIn, SumOver, Holds;
    AcrossAtLeast(g, bins, least);
    AcrossFilled(g, g, jobs[..|jobs| - 1], m);
    HoldsAtMost(g, jobs, m, binOf, most);
    SumSplit(g, jobs);
  }

  lemma SumSplit(g: nat -> real, jobs: seq<nat>)
    requires jobs != []
    ensures Sum(jobs, g) == Sum(jobs[..|jobs| - 1], g) + g(jobs[|jobs| - 1])
  {
  }

  lemma FourThirds(m: real, least: real, p: real, most: real)
    requires m >= 1.0 && most >= 0.0
    requires m * least + p <= m * most
    requires 3.0 * p > most ==> least + p <= most
    ensures 3.0 * m * (least + p) <= (4.0 * m - 1.0) * most
  {
    if 3.0 * p > most {
      assert m * (most - least - p) >= 0.0;
      assert (m - 1.0) * most >= 0.0;
    } else {
      assert (m - 1.0) * (most - 3.0 * p) >= 0.0;
    }
  }

  lemma LightestOfAll(g: nat -> real, bins: seq<seq<nat>>)
    requires bins != []
    ensures var least := Load(g, bins[Lightest(Loads(g, bins))]);
            forall bin :: bin in bins ==> Load(g, bin) >= least
  {
    var loads := Loads(g, bins);
    var n := Lightest(loads);
    forall bin | bin in bins
      ensures Load(g, bin) >= loads[n]
    {
      var c :| 0 <= c < |bins| && bins[c] == bin;
      assert loads[c] >= loads[n];
    }
  }

  lemma LoadGrows(g: nat -> real, bin: seq<nat>, job: nat)
    ensures Load(g, bin + [job]) == Load(g, bin) + g(job)
  {
    assert (bin + [job])[..|bin|] == bin;
  }

  /** The bin the last job went to keeps the bound. */
  lemma LastLandsWithin(g: nat -> real, jobs: seq<nat>, m: nat, binOf: nat -> nat, most: real)
    requires jobs != [] && m > 0 && (forall i :: g(i) >= 0.0) && HeaviestFirst(g, jobs)
    requires Holds(g, jobs, m, binOf, most) && most >= 0.0
    ensures var bins := Filled(g, jobs[..|jobs| - 1], m);
            3.0 * m as real * (Load(g, bins[Lightest(Loads(g, bins))]) + g(jobs[|jobs| - 1]))
            <= (4.0 * m as real - 1.0) * most
  {
    hide Filled, Load, Holds, HeaviestFirst;
    var bins := Filled(g, jobs[..|jobs| - 1], m);
    LightestOfAll(g, bins);
    var least := Load(g, bins[Lightest(Loads(g, bins))]);
    LightFits(g, jobs, m, binOf, most, bins, least);
    if 3.0 * g(jobs[|jobs| - 1]) > most { HeavyFits(g, jobs, m, binOf, most, bins, least); }
    FourThirds(m as real, least, g(jobs[|jobs| - 1]), most);
  }

  lemma HoldsIsNonNegative(g: nat -> real, jobs: seq<nat>, m: nat, binOf: nat -> nat, most: real)
    requires m > 0 && (forall i :: g(i) >= 0.0) && Holds(g, jobs, m, binOf, most)
    ensures most >= 0.0
  {
    GivenShrinks(g, jobs, 0, binOf, 0);
    assert most >= Given(g, jobs, binOf, 0);
  }

  lemma BoundIsNonNegative(m: real, most: real)
    requires m >= 1.0 && most >= 0.0
    ensures (4.0 * m - 1.0) * most >= 0.0
  {
  }

  /** LONGEST PROCESSING TIME FIRST: no bin exceeds (4m - 1)/3m of the fullest bin of any assignment to m bins. */
  lemma {:induction false} LoadsWithinFourThirds(g: nat -> real, jobs: seq<nat>, m: nat, binOf: nat -> nat,
                                                 most: real, b: nat)
    requires b < m && (forall i :: g(i) >= 0.0) && HeaviestFirst(g, jobs) && Holds(g, jobs, m, binOf, most)
    ensures 3.0 * m as real * Load(g, Filled(g, jobs, m)[b]) <= (4.0 * m as real - 1.0) * most
  {
    hide Holds, Lightest, Loads;
    HoldsIsNonNegative(g, jobs, m, binOf, most);
    if jobs == [] {
      BoundIsNonNegative(m as real, most);
      assert Load(g, []) == 0.0;
    } else {
      var front, last := jobs[..|jobs| - 1], jobs[|jobs| - 1];
      HoldsShrinks(g, jobs, |jobs| - 1, m, binOf, most);
      LoadsWithinFourThirds(g, front, m, binOf, most, b);
      var bins := Filled(g, front, m);
      LastLandsWithin(g, jobs, m, binOf, most);
      LoadGrows(g, bins[Lightest(Loads(g, bins))], last);
    }
  }
}
