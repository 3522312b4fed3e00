/**
 Submitting a round: the items grouped by memory class, each class balanced over its own shards and laid behind the
 heavier ones, so that one manifest holds them all and each class is one array of it.
 */
module Submits {
  import opened Options
  import opened Bins
  import opened Classes
  import opened Records
  import Shards
  import opened Balance
  import opened Gather
  import opened Rounds

  type Range = (nat, nat)

  // ----- memory classes

  function PowerOfTwo(n: nat): real {
    if n == 0 then 1.0 else 2.0 * PowerOfTwo(n - 1)
  }

  /** The memory class of an ask: the power of two that holds it. */
  function MemoryBand(gb: real): nat
    decreases if gb <= 1.0 then 0 else gb.Floor + 1
  {
    if gb <= 1.0 then 0 else 1 + MemoryBand(gb / 2.0)
  }

  /** An ask lies within its class, and above half of it past the first. */
  lemma {:induction false} BandHolds(gb: real)
    ensures gb <= PowerOfTwo(MemoryBand(gb))
    ensures MemoryBand(gb) > 0 ==> 2.0 * gb > PowerOfTwo(MemoryBand(gb))
    decreases if gb <= 1.0 then 0 else gb.Floor + 1
  {
    if gb > 1.0 {
      BandHolds(gb / 2.0);
    }
  }

  function BandOf(held: seq<real>): nat -> nat {
    (i: nat) => if i < |held| then MemoryBand(held[i]) else 0
  }

  function Members(held: seq<real>, key: nat): seq<nat> {
    InClass(Indices(|held|), BandOf(held), key)
  }

  // ----- the classes, heaviest first

  predicate Descending(keys: seq<nat>) {
    forall a, b :: 0 <= a < b < |keys| ==> keys[a] > keys[b]
  }

  function With(key: nat, keys: seq<nat>): (r: seq<nat>)
    requires Descending(keys)
    ensures Descending(r) && forall k :: k in r <==> k == key || k in keys
  {
    if keys == [] || key > keys[0] then [key] + keys
    else if key == keys[0] then keys
    else
      var rest := With(key, keys[1..]);
      assert keys == [keys[0]] + keys[1..];
      assert forall k :: 0 <= k < |rest| ==> rest[k] in rest;
      [keys[0]] + rest
  }

  /** The classes the items ask, heaviest first. */
  function Keys(held: seq<real>): (keys: seq<nat>)
    ensures Descending(keys) && forall i :: 0 <= i < |held| ==> MemoryBand(held[i]) in keys
    ensures forall k :: k in keys ==> exists i :: 0 <= i < |held| && MemoryBand(held[i]) == k
  {
    if held == [] then []
    else
      var last := |held| - 1;
      assert forall i :: 0 <= i < last ==> held[..last][i] == held[i];
      With(MemoryBand(held[last]), Keys(held[..last]))
  }

  // ----- one array a class

  /** What an item asks, held to the most memory any grant gives. */
  function Held(gb: real, grantable: Option<real>): real {
    if grantable.None? || gb <= grantable.value then gb else grantable.value
  }

  function AllHeld(asks: seq<real>, grantable: Option<real>): (held: seq<real>)
    ensures |held| == |asks|
  {
    seq(|asks|, k requires 0 <= k < |asks| => Held(asks[k], grantable))
  }

  /**
   One array of a round: its shards of the manifest, the class of every item in them, the memory a task asks, and
   whether that is the most any grant gives, `None` where no grant has a ceiling.
   */
  datatype Array = Array(shards: Range, band: nat, askGb: real, atCeiling: Option<bool>)

  /** An array is marked exactly when its tasks ask the most any grant gives, and none asks more. */
  predicate Flagged(jobArray: Array, grantable: Option<real>) {
    if grantable.None? then jobArray.atCeiling == None
    else jobArray.askGb <= grantable.value && jobArray.atCeiling == Some(jobArray.askGb == grantable.value)
  }

  /** Some item asks the ceiling or more exactly when the heaviest held ask is the ceiling. */
  lemma CeilingIsReached(asks: seq<real>, grantable: real, members: seq<nat>)
    requires members != [] && forall k :: 0 <= k < |members| ==> members[k] < |asks|
    ensures var most := Heaviest(AllHeld(asks, Some(grantable)), members);
            most <= grantable && (Heaviest(asks, members) >= grantable <==> most == grantable)
  {
    var held := AllHeld(asks, Some(grantable));
    var i :| 0 <= i < |members| && asks[members[i]] == Heaviest(asks, members);
    assert held[members[i]] <= Heaviest(held, members);
    var k :| 0 <= k < |members| && held[members[k]] == Heaviest(held, members);
    assert asks[members[k]] <= Heaviest(asks, members);
  }

  function AtEach<T>(values: seq<T>, at: seq<nat>): (r: seq<T>)
    requires forall k :: 0 <= k < |at| ==> at[k] < |values|
    ensures |r| == |at|
  {
    seq(|at|, k requires 0 <= k < |at| => values[at[k]])
  }

  function Moved(ranges: seq<Range>, base: nat): (r: seq<Range>)
    ensures |r| == |ranges|
  {
    seq(|ranges|, k requires 0 <= k < |ranges| => (ranges[k].0 + base, ranges[k].1 + base))
  }

  /** Item `i` is of the array's class and asks no more than its tasks do. */
  predicate Within(held: seq<real>, i: nat, jobArray: Array) {
    i < |held| && MemoryBand(held[i]) == jobArray.band == MemoryBand(jobArray.askGb) && held[i] <= jobArray.askGb
  }

  lemma FlaggedHere(asks: seq<real>, grantable: Option<real>, members: seq<nat>, shards: Range, band: nat)
    requires members != [] && forall k :: 0 <= k < |members| ==> members[k] < |asks|
    ensures var flag := if grantable.None? then None else Some(Heaviest(asks, members) >= grantable.value);
            Flagged(Array(shards, band, Heaviest(AllHeld(asks, grantable), members), flag), grantable)
  {
    hide Heaviest, AllHeld;
    if grantable.Some? { CeilingIsReached(asks, grantable.value, members); }
  }

  /** Every item in an array's shards is within it. */
  predicate Serves(held: seq<real>, order: seq<nat>, shards: seq<Range>, jobArray: Array) {
    && jobArray.shards.0 <= jobArray.shards.1 <= |shards|
    && forall s, k :: jobArray.shards.0 <= s < jobArray.shards.1 && shards[s].0 <= k < shards[s].1 && k < |order| ==>
         Within(held, order[k], jobArray)
  }

  function Heaviest(held: seq<real>, members: seq<nat>): (most: real)
    requires members != [] && forall k :: 0 <= k < |members| ==> members[k] < |held|
    ensures forall k :: 0 <= k < |members| ==> held[members[k]] <= most
    ensures exists k :: 0 <= k < |members| && held[members[k]] == most
  {
    var last := |members| - 1;
    if last == 0 then held[members[0]]
    else
      var before := Heaviest(held, members[..last]);
      assert forall k :: 0 <= k < last ==> members[..last][k] == members[k];
      if before >= held[members[last]] then before else held[members[last]]
  }

  lemma MembersAre(held: seq<real>, key: nat)
    ensures forall k :: 0 <= k < |Members(held, key)| ==>
              Members(held, key)[k] < |held| && MemoryBand(held[Members(held, key)[k]]) == key
  {
    var members := Members(held, key);
    InClassIsOfClass(Indices(|held|), BandOf(held), key);
    IndicesGrow(|held|);
    forall k | 0 <= k < |members|
      ensures members[k] < |held| && MemoryBand(held[members[k]]) == key
    {
      assert members[k] in members;
    }
  }

  lemma KeyHasMembers(held: seq<real>, key: nat)
    requires key in Keys(held)
    ensures Members(held, key) != []
  {
    var i :| 0 <= i < |held| && MemoryBand(held[i]) == key;
    IsMember(held, i);
  }

  lemma IsMember(held: seq<real>, i: nat)
    requires i < |held|
    ensures i in Members(held, MemoryBand(held[i]))
  {
    assert Indices(|held|)[i] == i;
    HasItsClass(Indices(|held|), BandOf(held), i);
  }

  // ----- a permutation picks everything

  lemma {:induction false} EachOfPermuted<T>(values: seq<T>, one: seq<nat>, other: seq<nat>)
    requires multiset(one) == multiset(other)
    requires forall k :: 0 <= k < |one| ==> one[k] < |values|
    requires forall k :: 0 <= k < |other| ==> other[k] < |values|
    ensures multiset(AtEach(values, one)) == multiset(AtEach(values, other))
  {
    if one == [] {
      assert |multiset(other)| == |other| == 0;
    } else {
      var last := |one| - 1;
      assert one[last] in multiset(other);
      var k :| 0 <= k < |other| && other[k] == one[last];
      Sums.TakenOut(one, other, k);
      EachOfPermuted(values, one[..last], other[..k] + other[k + 1..]);
      EachTakenOut(values, other, k);
      EachTakenOut(values, one, last);
      assert one[..last] + one[last + 1..] == one[..last];
    }
  }

  lemma EachTakenOut<T>(values: seq<T>, at: seq<nat>, k: nat)
    requires k < |at| && forall k :: 0 <= k < |at| ==> at[k] < |values|
    ensures multiset(AtEach(values, at)) == multiset(AtEach(values, at[..k] + at[k + 1..])) + multiset{values[at[k]]}
  {
    Sums.Removed(AtEach(values, at), k);
    assert AtEach(values, at)[..k] + AtEach(values, at)[k + 1..] == AtEach(values, at[..k] + at[k + 1..]);
  }

  lemma PermutationPicksAll<T>(values: seq<T>, order: seq<nat>)
    requires multiset(order) == multiset(Indices(|values|))
    ensures forall k :: 0 <= k < |order| ==> order[k] < |values|
    ensures multiset(AtEach(values, order)) == multiset(values)
  {
    BelowAll(order, |values|);
    EachOfPermuted(values, order, Indices(|values|));
    assert AtEach(values, Indices(|values|)) == values;
  }

  // ----- the manifest, class by class

  /** What the classes `keys` make of the manifest: their items, tiled by their shards, each array serving its own. */
  ghost predicate Manifest(held: seq<real>, keys: seq<nat>, order: seq<nat>, shards: seq<Range>, arrays: seq<Array>) {
    && multiset(order) == AllClasses(Indices(|held|), BandOf(held), keys)
    && Tiles(shards, |order|)
    && |arrays| == |keys|
    && (forall n :: 0 <= n < |arrays| ==> arrays[n].band == keys[n] && Serves(held, order, shards, arrays[n]))
    && (forall n :: 0 < n < |arrays| ==> arrays[n - 1].shards.1 == arrays[n].shards.0)
    && (if arrays == [] then shards == [] else arrays[0].shards.0 == 0 && arrays[|arrays| - 1].shards.1 == |shards|)
  }

  lemma TilesOn(shards: seq<Range>, items: nat, ranges: seq<Range>, more: nat)
    requires Tiles(shards, items) && Tiles(ranges, more)
    ensures Tiles(shards + Moved(ranges, items), items + more)
  {
    var all := shards + Moved(ranges, items);
    forall n | 0 <= n < |all|
      ensures all[n].0 < all[n].1 <= items + more
      ensures n > 0 ==> all[n - 1].1 == all[n].0
    {
      if n >= |shards| {
        MovedAt(ranges, items, n - |shards|);
        if n > |shards| { MovedAt(ranges, items, n - |shards| - 1); }
      }
    }
    if ranges != [] { MovedAt(ranges, items, |ranges| - 1); }
  }

  lemma MovedAt(ranges: seq<Range>, base: nat, k: nat)
    requires k < |ranges|
    ensures Moved(ranges, base)[k] == (ranges[k].0 + base, ranges[k].1 + base)
  {
  }

  lemma StillServes(held: seq<real>, order: seq<nat>, shards: seq<Range>, jobArray: Array, order': seq<nat>,
                    shards': seq<Range>)
    requires Serves(held, order, shards, jobArray) && Tiles(shards, |order|) && order <= order' && shards <= shards'
    ensures Serves(held, order', shards', jobArray)
  {
    hide Within;
    forall s, k | jobArray.shards.0 <= s < jobArray.shards.1 && shards'[s].0 <= k < shards'[s].1 && k < |order'|
      ensures Within(held, order'[k], jobArray)
    {
      assert shards'[s] == shards[s] && k < shards[s].1 <= |order|;
    }
  }

  lemma ServesItsClass(held: seq<real>, key: nat, order: seq<nat>, shards: seq<Range>, picked: seq<nat>,
                       ranges: seq<Range>,
                         flag: Option<bool>)
    requires Members(held, key) != [] && Tiles(shards, |order|) && Tiles(ranges, |picked|)
    requires multiset(picked) == multiset(Members(held, key))
    requires forall k :: 0 <= k < |Members(held, key)| ==> Members(held, key)[k] < |held|
    ensures var all := shards + Moved(ranges, |order|);
            Serves(held, order + picked, all, Array((|shards|, |all|), key, Heaviest(held, Members(held, key)), flag))
  {
    hide MemoryBand, Members;
    var members := Members(held, key);
    MembersAre(held, key);
    Bins.SameMembers(picked, members);
    var all, most := shards + Moved(ranges, |order|), Heaviest(held, members);
    forall s, k | |shards| <= s < |all| && all[s].0 <= k < all[s].1 && k < |order + picked|
      ensures Within(held, (order + picked)[k], Array((|shards|, |all|), key, most, flag))
    {
      assert all[s].0 >= |order| && (order + picked)[k] == picked[k - |order|] && picked[k - |order|] in picked;
    }
  }

  // ----- the round

  /** The plan's cut of each class before balancing: its shards tile the class's items. */
  predicate Cut(held: seq<real>, cuts: map<nat, seq<Range>>) {
    forall key :: key in Keys(held) ==> key in cuts && Tiles(cuts[key], |Members(held, key)|)
  }

  predicate AllPositive(seconds: seq<real>) {
    forall i :: 0 <= i < |seconds| ==> seconds[i] > 0.0
  }

  lemma {:induction false} StartsPast(shards: seq<Range>, items: nat, k: nat)
    requires Tiles(shards, items) && k < |shards|
    ensures shards[k].0 >= k
  {
    if k > 0 {
      StartsPast(shards, items, k - 1);
    }
  }

  /** Balancing a class keeps its shards tiling, none of them empty, over a permutation of the class. */
  lemma BalancedTiles(seconds: seq<real>, shards: seq<Range>)
    requires AllPositive(seconds) && Tiles(shards, |seconds|)
    ensures Shards.InRange(shards, |seconds|) && (shards == [] ==> seconds == [])
    ensures var (order, ranges) := Balanced(seconds, shards);
            multiset(order) == multiset(Indices(|seconds|)) && |order| == |seconds| && Tiles(ranges, |seconds|)
  {
    hide Balanced;
    BalancedPermutes(seconds, shards);
    var ranges := Balanced(seconds, shards).1;
    if shards != [] { StartsPast(shards, |seconds|, |shards| - 1); }
    forall k | 0 <= k < |ranges|
      ensures ranges[k].0 < ranges[k].1
    {
      NoShardIsEmpty(seconds, shards, k);
    }
  }

  /** The class of an array is laid out as balancing its planned cut says, from item `base` of the manifest on. */
  predicate LaidAt(held: seq<real>, seconds: seq<real>, cut: seq<Range>, order: seq<nat>, shards: seq<Range>,
                   jobArray: Array, base: nat)
    requires |held| == |seconds|
  {
    var members := Members(held, jobArray.band);
    && (forall k :: 0 <= k < |members| ==> members[k] < |seconds|)
    && Shards.InRange(cut, |members|)
    && var (local, ranges) := Balanced(AtEach(seconds, members), cut);
       && (forall k :: 0 <= k < |local| ==> local[k] < |members|)
       && base + |local| <= |order| && order[base..base + |local|] == AtEach(members, local)
       && jobArray.shards.0 <= jobArray.shards.1 <= |shards|
       && shards[jobArray.shards.0..jobArray.shards.1] == Moved(ranges, base)
  }

  /** Every array is a class of the round as balanced, and its tasks ask what the heaviest item of it does. */
  ghost predicate AsBalanced(held: seq<real>, seconds: seq<real>, cuts: map<nat, seq<Range>>, order: seq<nat>,
                             shards: seq<Range>, arrays: seq<Array>)
    requires |held| == |seconds|
  {
    forall n :: 0 <= n < |arrays| ==> OneAsBalanced(held, seconds, cuts, order, shards, arrays[n])
  }

  ghost predicate OneAsBalanced(held: seq<real>, seconds: seq<real>, cuts: map<nat, seq<Range>>, order: seq<nat>,
                                shards: seq<Range>, jobArray: Array)
    requires |held| == |seconds|
  {
    && jobArray.band in cuts
    && (exists base :: LaidAt(held, seconds, cuts[jobArray.band], order, shards, jobArray, base))
    && exists i :: 0 <= i < |held| && MemoryBand(held[i]) == jobArray.band && held[i] == jobArray.askGb
  }

  lemma StillAsBalanced(held: seq<real>, seconds: seq<real>, cuts: map<nat, seq<Range>>, order: seq<nat>,
                        shards: seq<Range>, jobArray: Array, order': seq<nat>, shards': seq<Range>)
    requires |held| == |seconds| && order <= order' && shards <= shards'
    requires OneAsBalanced(held, seconds, cuts, order, shards, jobArray)
    ensures OneAsBalanced(held, seconds, cuts, order', shards', jobArray)
  {
    hide LaidAt, MemoryBand;
    var base :| LaidAt(held, seconds, cuts[jobArray.band], order, shards, jobArray, base);
    StillLaid(held, seconds, cuts[jobArray.band], order, shards, jobArray, base, order', shards');
  }

  lemma StillLaid(held: seq<real>, seconds: seq<real>, cut: seq<Range>, order: seq<nat>, shards: seq<Range>,
                  jobArray: Array, base: nat, order': seq<nat>, shards': seq<Range>)
    requires |held| == |seconds| && order <= order' && shards <= shards'
    requires LaidAt(held, seconds, cut, order, shards, jobArray, base)
    ensures LaidAt(held, seconds, cut, order', shards', jobArray, base)
  {
    hide Members, Balanced;
    var (local, ranges) := Balanced(AtEach(seconds, Members(held, jobArray.band)), cut);
    assert order'[base..base + |local|] == order[base..base + |local|];
    assert shards'[jobArray.shards.0..jobArray.shards.1] == shards[jobArray.shards.0..jobArray.shards.1];
  }

  lemma NewlyLaid(held: seq<real>, seconds: seq<real>, cut: seq<Range>, order: seq<nat>, shards: seq<Range>,
                  jobArray: Array)
    requires |held| == |seconds| && Shards.InRange(cut, |Members(held, jobArray.band)|)
    requires forall k :: 0 <= k < |Members(held, jobArray.band)| ==> Members(held, jobArray.band)[k] < |seconds|
    requires var members := Members(held, jobArray.band);
             var (local, ranges) := Balanced(AtEach(seconds, members), cut);
             && (forall k :: 0 <= k < |local| ==> local[k] < |members|)
             && jobArray.shards == (|shards|, |shards| + |ranges|)
    ensures var members := Members(held, jobArray.band);
            var (local, ranges) := Balanced(AtEach(seconds, members), cut);
            LaidAt(held, seconds, cut, order + AtEach(members, local), shards + Moved(ranges, |order|), jobArray,
                   |order|)
  {
    hide Members, Balanced;
    var members := Members(held, jobArray.band);
    var (local, ranges) := Balanced(AtEach(seconds, members), cut);
    assert (order + AtEach(members, local))[|order|..|order| + |local|] == AtEach(members, local);
    assert (shards + Moved(ranges, |order|))[|shards|..|shards| + |ranges|] == Moved(ranges, |order|);
  }

  lemma OneClassMore(held: seq<real>, seconds: seq<real>, cuts: map<nat, seq<Range>>, order: seq<nat>,
                     shards: seq<Range>, arrays: seq<Array>, jobArray: Array, order': seq<nat>, shards': seq<Range>)
    requires |held| == |seconds| && order <= order' && shards <= shards'
    requires AsBalanced(held, seconds, cuts, order, shards, arrays) && jobArray.band in cuts
    requires LaidAt(held, seconds, cuts[jobArray.band], order', shards', jobArray, |order|)
    requires exists i :: 0 <= i < |held| && MemoryBand(held[i]) == jobArray.band && held[i] == jobArray.askGb
    ensures AsBalanced(held, seconds, cuts, order', shards', arrays + [jobArray])
  {
    assert OneAsBalanced(held, seconds, cuts, order', shards', jobArray) by { hide LaidAt, MemoryBand; }
    hide LaidAt, MemoryBand, OneAsBalanced;
    forall n | 0 <= n < |arrays|
      ensures OneAsBalanced(held, seconds, cuts, order', shards', arrays[n])
    {
      StillAsBalanced(held, seconds, cuts, order, shards, arrays[n], order', shards');
    }
  }

  lemma AsksItsHeaviest(held: seq<real>, key: nat)
    requires Members(held, key) != []
    requires forall k :: 0 <= k < |Members(held, key)| ==> Members(held, key)[k] < |held|
    ensures exists i :: 0 <= i < |held| && MemoryBand(held[i]) == key && held[i] == Heaviest(held, Members(held, key))
  {
    hide Members;
    MembersAre(held, key);
    var k :| 0 <= k < |Members(held, key)| && held[Members(held, key)[k]] == Heaviest(held, Members(held, key));
  }

  /**
   One round's manifest: its items a permutation of the pending groups, tiled by shards; one array per memory class,
   heaviest first, each task asking at least what each of its items asks and the same class.
   */
  method SubmitRound(pending: seq<Group>, asks: seq<real>, grantable: Option<real>, seconds: seq<real>,
                     cuts: map<nat, seq<Range>>)
    returns (items: seq<Group>, shards: seq<Range>, arrays: seq<Array>, ghost order: seq<nat>)
    requires |asks| == |seconds| == |pending| && AllPositive(seconds) && Cut(AllHeld(asks, grantable), cuts)
    ensures multiset(order) == multiset(Indices(|pending|)) && multiset(items) == multiset(pending)
    ensures forall k :: 0 <= k < |order| ==> order[k] < |pending|
    ensures items == AtEach(pending, order)
    ensures Manifest(AllHeld(asks, grantable), Keys(AllHeld(asks, grantable)), order, shards, arrays)
    ensures forall n :: 0 <= n < |arrays| ==> Flagged(arrays[n], grantable)
    ensures AsBalanced(AllHeld(asks, grantable), seconds, cuts, order, shards, arrays)
  {
    hide Manifest, Members, Tiles, Balanced, MemoryBand, Serves, Heaviest, AllHeld, Flagged, Keys, BandOf, AsBalanced,
         LaidAt;
    var held := AllHeld(asks, grantable);
    var keys := Keys(held);
    var laid: seq<nat> := [];
    shards, arrays := [], [];
    NothingLaidOut(held);
    assert AsBalanced(held, seconds, cuts, laid, shards, arrays) by { NothingBalanced(held, seconds, cuts); }
    for n := 0 to |keys|
      invariant Manifest(held, keys[..n], laid, shards, arrays)
      invariant forall k :: 0 <= k < |arrays| ==> Flagged(arrays[k], grantable)
      invariant AsBalanced(held, seconds, cuts, laid, shards, arrays)
    {
      var members := Members(held, keys[n]);
      MembersAre(held, keys[n]);
      KeyHasMembers(held, keys[n]);
      var own := AtEach(seconds, members);
      assert AllPositive(own);
      BalancedTiles(own, cuts[keys[n]]);
      var local, ranges := Balance.Balance(own, cuts[keys[n]]);
      PermutationPicksAll(members, local);
      var picked := AtEach(members, local);
      var atCeiling := if grantable.None? then None else Some(Heaviest(asks, members) >= grantable.value);
      FlaggedHere(asks, grantable, members, (|shards|, |shards| + |ranges|), keys[n]);
      OneArrayMore(held, keys, n, laid, shards, arrays, picked, ranges, atCeiling);
      var first := |shards|;
      var added := Array((first, first + |ranges|), keys[n], Heaviest(held, members), atCeiling);
      NewlyLaid(held, seconds, cuts[keys[n]], laid, shards, added);
      AsksItsHeaviest(held, keys[n]);
      OneClassMore(held, seconds, cuts, laid, shards, arrays, added, laid + picked, shards + Moved(ranges, |laid|));
      shards := shards + Moved(ranges, |laid|);
      laid := laid + picked;
      arrays := arrays + [added];
    }
    assert keys[..|keys|] == keys;
    EveryItemIsLaid(held, keys, laid, shards, arrays);
    PermutationPicksAll(pending, laid);
    items, order := AtEach(pending, laid), laid;
  }

  lemma NothingBalanced(held: seq<real>, seconds: seq<real>, cuts: map<nat, seq<Range>>)
    requires |held| == |seconds|
    ensures AsBalanced(held, seconds, cuts, [], [], [])
  {
  }

  lemma NothingLaidOut(held: seq<real>)
    ensures Manifest(held, [], [], [], [])
  {
  }

  lemma OneArrayMore(held: seq<real>, keys: seq<nat>, n: nat, order: seq<nat>, shards: seq<Range>, arrays: seq<Array>,
                     picked: seq<nat>, ranges: seq<Range>, flag: Option<bool>)
    requires n < |keys| && Manifest(held, keys[..n], order, shards, arrays)
    requires Members(held, keys[n]) != [] && multiset(picked) == multiset(Members(held, keys[n]))
    requires forall k :: 0 <= k < |Members(held, keys[n])| ==> Members(held, keys[n])[k] < |held|
    requires Tiles(ranges, |picked|)
    ensures var all := shards + Moved(ranges, |order|);
            Manifest(held, keys[..n + 1], order + picked, all,
                     arrays + [Array((|shards|, |all|), keys[n], Heaviest(held, Members(held, keys[n])), flag)])
  {
    hide Serves, Tiles, Heaviest, Members, InClass, MemoryBand;
    var all := shards + Moved(ranges, |order|);
    ServesItsClass(held, keys[n], order, shards, picked, ranges, flag);
    TilesOn(shards, |order|, ranges, |picked|);
    assert keys[..n + 1][..n] == keys[..n];
    assert multiset(picked) == multiset(InClass(Indices(|held|), BandOf(held), keys[n])) by {
      MembersUnfold(held, keys[n]);
    }
    forall a | 0 <= a < |arrays|
      ensures Serves(held, order + picked, all, arrays[a])
    {
      StillServes(held, order, shards, arrays[a], order + picked, all);
    }
  }

  lemma MembersUnfold(held: seq<real>, key: nat)
    ensures Members(held, key) == InClass(Indices(|held|), BandOf(held), key)
  {
  }

  lemma EveryItemIsLaid(held: seq<real>, keys: seq<nat>, order: seq<nat>, shards: seq<Range>, arrays: seq<Array>)
    requires Manifest(held, keys, order, shards, arrays) && keys == Keys(held)
    ensures multiset(order) == multiset(Indices(|held|))
  {
    hide MemoryBand, Keys, AllClasses;
    IndicesGrow(|held|);
    ClassesKeepAll(Indices(|held|), BandOf(held), keys);
  }

  /** So a submitted round only rearranges the groups it was handed. */
  lemma ManifestRearranges(pending: seq<Group>, order: seq<nat>, ceiling: bool)
    requires multiset(order) == multiset(Indices(|pending|))
    ensures forall k :: 0 <= k < |order| ==> order[k] < |pending|
    ensures Rearranges(Placed(AtEach(pending, order), ceiling), pending)
  {
    PermutationPicksAll(pending, order);
  }

  /** No task asks twice what its item does: past the first class, an array's ask is under double each item's. */
  lemma AsksUnderDouble(held: seq<real>, order: seq<nat>, shards: seq<Range>, jobArray: Array, s: nat, k: nat)
    requires Serves(held, order, shards, jobArray) && jobArray.shards.0 <= s < jobArray.shards.1
    requires shards[s].0 <= k < shards[s].1 && k < |order|
    ensures held[order[k]] <= jobArray.askGb
    ensures jobArray.askGb <= 1.0 || jobArray.askGb < 2.0 * held[order[k]]
  {
    BandHolds(held[order[k]]);
    BandHolds(jobArray.askGb);
  }

  // ----- the wall of a balanced round

  /** A plan's wall over its balanced shards: the slowest in whole minutes, never past the plan's own. */
  function Rewalled(planMinutes: nat, slowest: real): (minutes: nat)
    ensures minutes <= planMinutes
    ensures minutes < planMinutes ==> slowest <= 60.0 * minutes as real
    ensures minutes > 1 ==> 60.0 * (minutes - 1) as real < slowest
    ensures minutes == 0 ==> planMinutes == 0
  {
    var minutes := if Shards.Ceiling(slowest / 60.0) > 1 then Shards.Ceiling(slowest / 60.0) else 1;
    if planMinutes <= minutes then planMinutes else minutes
  }

  lemma RewalledHolds(planMinutes: nat, slowest: real)
    requires slowest <= 60.0 * planMinutes as real
    ensures Rewalled(planMinutes, slowest) <= planMinutes && slowest <= 60.0 * Rewalled(planMinutes, slowest) as real
  {
  }

  /** Seconds with the policy's safety margin on them. */
  function Padded(seconds: real, safety: real): real {
    seconds * safety
  }

  /** Padding what runs back to back is padding each part. */
  lemma PaddingAddsUp(a: real, b: real, safety: real)
    ensures Padded(a + b, safety) == Padded(a, safety) + Padded(b, safety)
    ensures Padded(a, 1.0) == a
  {
  }

  lemma PaddedGrows(a: real, b: real, safety: real)
    requires a <= b && safety >= 0.0
    ensures Padded(a, safety) <= Padded(b, safety)
  {
    assert (b - a) * safety >= 0.0;
  }

  lemma RewalledHoldsShard(seconds: seq<real>, shards: seq<Range>, slowest: real, planMinutes: nat, safety: real,
                           k: nat)
    requires Shards.InRange(shards, |seconds|) && safety >= 0.0 && k < |shards|
    requires Shards.Slowest(seconds, shards) <= slowest && Padded(slowest, safety) <= 60.0 * planMinutes as real
    ensures var minutes := Rewalled(planMinutes, Padded(Shards.Slowest(seconds, shards), safety));
            && minutes <= planMinutes
            && Padded(Shards.RangeSum(seconds, shards[k].0, shards[k].1), safety) <= 60.0 * minutes as real
  {
    hide Rewalled, Padded;
    Shards.RangeUnderSlowest(seconds, shards, k);
    PaddedGrows(Shards.Slowest(seconds, shards), slowest, safety);
    PaddedGrows(Shards.RangeSum(seconds, shards[k].0, shards[k].1), Shards.Slowest(seconds, shards), safety);
    RewalledHolds(planMinutes, Padded(Shards.Slowest(seconds, shards), safety));
  }

  /** Where the plan's wall held the shards it was planned over, the new wall holds every padded balanced shard. */
  lemma RewalledHoldsEveryShard(seconds: seq<real>, shards: seq<Range>, planMinutes: nat, safety: real, k: nat)
    requires Shards.InRange(shards, |seconds|) && safety >= 0.0 && k < |shards|
    requires Padded(Shards.Slowest(seconds, shards), safety) <= 60.0 * planMinutes as real
    ensures var (order, ranges) := Balanced(seconds, shards);
            && Shards.InRange(ranges, |order|) && k < |ranges|
            && var picked := Picked(seconds, order);
               var minutes := Rewalled(planMinutes, Padded(Shards.Slowest(picked, ranges), safety));
               && minutes <= planMinutes
               && Padded(Shards.RangeSum(picked, ranges[k].0, ranges[k].1), safety) <= 60.0 * minutes as real
  {
    hide Balanced, Picked, Rewalled, Padded;
    BalancedPermutes(seconds, shards);
    NeverSlower(seconds, shards);
    var (order, ranges) := Balanced(seconds, shards);
    RewalledHoldsShard(Picked(seconds, order), ranges, Shards.Slowest(seconds, shards), planMinutes, safety, k);
  }
}
