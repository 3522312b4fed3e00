/**
 How the retry protocol ends. A group's potential never rises, and falls in every round judged out of memory, so
 the rounds that are not counted against the retry limit are bounded by the potential of the first.
 */
module RoundsEnd {
  import opened Options
  import opened PytestItem
  import opened Measured
  import opened Records
  import opened Gather
  import opened Rounds
  import opened Sums

  /** How many more memory kills a group can take: bisected down to lone ids, each lost at most OOM_ROUNDS times. */
  function Weight(group: Group, lost: map<Id, nat>): nat {
    if |group| >= 2 then (OOM_ROUNDS + 1) * |group| - 1
    else if group == [] then 0
    else if Lost(lost, group[0]) >= OOM_ROUNDS then 0
    else OOM_ROUNDS - Lost(lost, group[0])
  }

  function Potential(groups: seq<Group>, lost: map<Id, nat>): nat {
    if groups == [] then 0 else Potential(groups[..|groups| - 1], lost) + Weight(groups[|groups| - 1], lost)
  }

  lemma {:induction false} PotentialAdds(first: seq<Group>, second: seq<Group>, lost: map<Id, nat>)
    ensures Potential(first + second, lost) == Potential(first, lost) + Potential(second, lost)
  {
    if second == [] {
      assert first + second == first;
    } else {
      hide Weight;
      assert (first + second)[..|first + second| - 1] == first + second[..|second| - 1];
      PotentialAdds(first, second[..|second| - 1], lost);
    }
  }

  lemma PotentialOfOne(group: Group, lost: map<Id, nat>)
    ensures Potential([group], lost) == Weight(group, lost)
  {
    var one := [group];
    assert one[..0] == [];
    assert Potential([], lost) == 0;
  }

  lemma {:induction false} RearrangedPotential(a: seq<Group>, b: seq<Group>, lost: map<Id, nat>)
    requires multiset(a) == multiset(b)
    ensures Potential(a, lost) == Potential(b, lost)
  {
    hide Weight;
    if a == [] {
      assert |multiset(b)| == |b| == 0;
    } else {
      var g := a[|a| - 1];
      assert g in multiset(b);
      var k :| 0 <= k < |b| && b[k] == g;
      TakenOut(a, b, k);
      RearrangedPotential(a[..|a| - 1], b[..k] + b[k + 1..], lost);
      assert b == b[..k] + ([b[k]] + b[k + 1..]);
      PotentialAdds(b[..k], [b[k]] + b[k + 1..], lost);
      PotentialAdds([b[k]], b[k + 1..], lost);
      PotentialAdds(b[..k], b[k + 1..], lost);
      PotentialOfOne(b[k], lost);
    }
  }

  // ----- one item

  lemma GroupWeighs(group: Group, lost: map<Id, nat>)
    ensures Weight(group, lost) <= if group == [] then 0 else (OOM_ROUNDS + 1) * |group| - 1
  {
  }

  lemma WeightOfNonEmpty(ids: Group, lost: map<Id, nat>)
    ensures Potential(NonEmpty(ids), lost) <= if ids == [] then 0 else (OOM_ROUNDS + 1) * |ids| - 1
  {
    PotentialOfOne(ids, lost);
    GroupWeighs(ids, lost);
  }

  lemma WeightOfHalves(rest: Group, lost: map<Id, nat>)
    ensures |rest| >= 2 ==> Potential(Halves(rest), lost) <= (OOM_ROUNDS + 1) * |rest| - 2
    ensures |rest| == 1 ==> Halves(rest) == [rest]
    ensures rest == [] ==> Halves(rest) == []
  {
    hide Weight, Potential;
    var half := (|rest| + 1) / 2;
    PotentialAdds(NonEmpty(rest[..half]), NonEmpty(rest[half..]), lost);
    WeightOfNonEmpty(rest[..half], lost);
    WeightOfNonEmpty(rest[half..], lost);
    if |rest| == 1 { assert rest[..1] == rest && rest[1..] == []; }
  }

  lemma {:induction false} UnfinishedIsShorter(ids: Group, done: set<Id>)
    ensures |Unfinished(ids, done)| <= |ids|
    ensures (exists id :: id in ids && id in done) ==> |Unfinished(ids, done)| < |ids|
    ensures |Unfinished(ids, done)| == |ids| ==> Unfinished(ids, done) == ids
  {
    if ids != [] {
      UnfinishedIsShorter(ids[..|ids| - 1], done);
      assert ids == ids[..|ids| - 1] + [ids[|ids| - 1]];
    }
  }

  /** A lone id counted for memory weighs one less, and nothing once it is celled. */
  function BoundedWeight(group: Group, alone: set<Id>, lost: map<Id, nat>): nat {
    var weight := Weight(group, lost);
    if Counted(group, alone) && weight > 0 then weight - 1 else weight
  }

  function BoundedPotential(groups: seq<Group>, alone: set<Id>, lost: map<Id, nat>): nat {
    if groups == [] then 0
    else BoundedPotential(groups[..|groups| - 1], alone, lost) + BoundedWeight(groups[|groups| - 1], alone, lost)
  }

  lemma {:induction false} BoundedAdds(first: seq<Group>, second: seq<Group>, alone: set<Id>, lost: map<Id, nat>)
    ensures BoundedPotential(first + second, alone, lost) ==
            BoundedPotential(first, alone, lost) + BoundedPotential(second, alone, lost)
  {
    if second == [] {
      assert first + second == first;
    } else {
      hide BoundedWeight;
      assert (first + second)[..|first + second| - 1] == first + second[..|second| - 1];
      BoundedAdds(first, second[..|second| - 1], alone, lost);
    }
  }

  lemma BoundedOfOne(group: Group, alone: set<Id>, lost: map<Id, nat>)
    ensures BoundedPotential([group], alone, lost) == BoundedWeight(group, alone, lost)
  {
    var one := [group];
    assert one[..0] == [];
    assert BoundedPotential([], alone, lost) == 0;
  }

  lemma {:induction false} BoundedIsLess(groups: seq<Group>, alone: set<Id>, lost: map<Id, nat>)
    ensures BoundedPotential(groups, alone, lost) <= Potential(groups, lost)
  {
    if groups != [] {
      BoundedIsLess(groups[..|groups| - 1], alone, lost);
    }
  }

  /** No id still to run was lost often enough to be celled. */
  predicate Fresh(groups: seq<Group>, lost: map<Id, nat>) {
    forall id :: id in IdsIn(groups) ==> Lost(lost, id) < OOM_ROUNDS
  }

  lemma {:induction false} IdsOfMember(groups: seq<Group>, i: nat)
    requires i < |groups|
    ensures forall id :: id in groups[i] ==> id in IdsIn(groups)
  {
    if i == |groups| - 1 {
      assert forall id :: id in groups[i] ==> id in multiset(groups[i]);
    } else {
      IdsOfMember(groups[..|groups| - 1], i);
    }
  }

  /** What an item leaves is lighter, but for a lone id that never finished: that one is left as it was. */
  lemma LeavesLighter(report: Report, item: nat, ids: Group, folded: Folded, lost: map<Id, nat>)
    requires ids != [] && forall id :: id in ids ==> Lost(lost, id) < OOM_ROUNDS
    requires FoldItem(report, item, ids, folded).Some?
    ensures var left := FoldItem(report, item, ids, folded).value.left;
            Potential(left, lost) < Weight(ids, lost) || (left == [ids] && |ids| == 1)
  {
    hide Potential, CutAtTop, AtCeiling, ClosedByItself, Halves, Unfinished, Lost, Weight;
    var rest := Unfinished(ids, folded.cells.Keys);
    UnfinishedIsShorter(ids, folded.cells.Keys);
    WeighsSomething(ids, lost);
    if ClosedByItself(folded) {
      ExitedLeavesLighter(folded, rest, ids, lost);
    } else if CutAtTop(report, item) {
      WeightOfNonEmpty(rest[1..], lost);
      NothingWeighs(lost);
    } else {
      WeightOfHalves(rest, lost);
      PotentialOfOne(rest, lost);
      GroupWeighs(rest, lost);
      NothingWeighs(lost);
    }
  }

  lemma NothingWeighs(lost: map<Id, nat>)
    ensures Potential([], lost) == 0
  {
  }

  lemma WeighsSomething(ids: Group, lost: map<Id, nat>)
    requires ids != [] && forall id :: id in ids ==> Lost(lost, id) < OOM_ROUNDS
    ensures Weight(ids, lost) > 0
    ensures |ids| >= 2 ==> Weight(ids, lost) == (OOM_ROUNDS + 1) * |ids| - 1
  {
  }

  lemma ExitedLeavesLighter(folded: Folded, rest: Group, ids: Group, lost: map<Id, nat>)
    requires |rest| <= |ids| && Weight(ids, lost) > 0
    requires |ids| >= 2 ==> Weight(ids, lost) == (OOM_ROUNDS + 1) * |ids| - 1
    ensures Potential(Exited(folded, rest).left, lost) < Weight(ids, lost)
  {
    hide Potential, Weight, Unfinished;
    NothingWeighs(lost);
    if folded.started.Some? && folded.started.value in rest {
      UnfinishedIsShorter(rest, {folded.started.value});
      WeightOfNonEmpty(AllBut(rest, folded.started.value), lost);
    }
  }

  /** In a round judged out of memory, an item outside a timed-out shard leaves strictly less. */
  lemma BoundedLeavesLighter(report: Report, items: seq<Group>, item: nat, lost: map<Id, nat>)
    requires item < |items| == |report.folds|
    requires items[item] != [] && forall id :: id in items[item] ==> Lost(lost, id) < OOM_ROUNDS
    requires FoldItem(report, item, items[item], report.folds[item]).Some?
    ensures var left := FoldItem(report, item, items[item], report.folds[item]).value.left;
            var after := BoundedPotential(left, RanAlone(items, report), lost);
            && after <= Weight(items[item], lost)
            && (!InTimedOutShard(report, item) ==> after < Weight(items[item], lost))
  {
    hide FoldItem, Potential, InTimedOutShard, Lost, Weight;
    var ids := items[item];
    var left := FoldItem(report, item, ids, report.folds[item]).value.left;
    var alone := RanAlone(items, report);
    LeavesLighter(report, item, ids, report.folds[item], lost);
    BoundedIsLess(left, alone, lost);
    if left == [ids] && |ids| == 1 {
      BoundedOfOne(ids, alone, lost);
      WeighsSomething(ids, lost);
      if !InTimedOutShard(report, item) {
        assert ids[0] in alone;
      }
    }
  }

  // ----- a round

  lemma {:induction false} FoldLeavesLighter(report: Report, items: seq<Group>, cells: Cells, k: nat,
                                             lost: map<Id, nat>)
    requires Reported(items, report) && k <= |items|
    requires AllNonEmpty(items) && Fresh(items, lost)
    requires FoldTo(report, items, cells, k).Some?
    ensures var left := FoldTo(report, items, cells, k).value.left;
            && Potential(left, lost) <= Potential(items[..k], lost)
            && BoundedPotential(left, RanAlone(items, report), lost) <= Potential(items[..k], lost)
            && ((exists i :: 0 <= i < k && !InTimedOutShard(report, i)) ==>
                  BoundedPotential(left, RanAlone(items, report), lost) < Potential(items[..k], lost))
  {
    hide FoldItem, Weight, RanAlone, InTimedOutShard, Lost, IdsIn;
    if k == 0 {
      assert items[..0] == [];
    } else {
      var i := k - 1;
      FoldLeavesLighter(report, items, cells, i, lost);
      assert items[i] in items;
      IdsOfMember(items, i);
      LeavesLighter(report, i, items[i], report.folds[i], lost);
      BoundedLeavesLighter(report, items, i, lost);
      assert items[..k] == items[..i] + [items[i]];
      BothAdd(FoldTo(report, items, cells, i).value.left,
              FoldItem(report, i, items[i], report.folds[i]).value.left, items[..i], items[i],
              RanAlone(items, report), lost);
    }
  }

  lemma BothAdd(left: seq<Group>, one: seq<Group>, before: seq<Group>, item: Group, alone: set<Id>, lost: map<Id, nat>)
    ensures Potential(left + one, lost) == Potential(left, lost) + Potential(one, lost)
    ensures BoundedPotential(left + one, alone, lost) ==
            BoundedPotential(left, alone, lost) + BoundedPotential(one, alone, lost)
    ensures Potential(before + [item], lost) == Potential(before, lost) + Weight(item, lost)
    ensures Potential([item], lost) == Weight(item, lost)
  {
    hide Potential, BoundedPotential, Weight;
    PotentialAdds(left, one, lost);
    BoundedAdds(left, one, alone, lost);
    PotentialAdds(before, [item], lost);
    PotentialOfOne(item, lost);
  }

  /** A round judged out of memory ran some item outside a timed-out shard. */
  lemma JudgedRanSomething(report: Report, items: seq<Group>)
    requires Reported(items, report) && Judged(report, AnyKilled(report))
    ensures exists i :: 0 <= i < |items| && !InTimedOutShard(report, i)
  {
    if n: nat :| n < |report.states| && report.states[n].RanOutOfMemory? {
      var i := report.shards[n].0;
      OnlyShard(report.shards, |items|, n, i);
      assert !InTimedOutShard(report, i);
    } else {
      var i :| 0 <= i < |report.folds| && Signalled(report.folds[i]);
      assert !InTimedOutShard(report, i);
    }
  }

  // ----- bounding lone ids

  lemma {:induction false} SameLossesSamePotential(groups: seq<Group>, lost: map<Id, nat>, other: map<Id, nat>)
    requires forall id :: id in IdsIn(groups) ==> Lost(lost, id) == Lost(other, id)
    ensures Potential(groups, lost) == Potential(groups, other)
  {
    if groups != [] {
      var front, last := groups[..|groups| - 1], groups[|groups| - 1];
      hide Lost;
      assert forall id :: id in last ==> id in multiset(last);
      SameLossesSamePotential(front, lost, other);
    }
  }

  lemma {:induction false} BoundKeepsSome(pending: seq<Group>, alone: set<Id>, lost: map<Id, nat>, cells: Cells)
    ensures var after := BoundAll(pending, alone, lost, cells);
            && IdsIn(after.kept) <= IdsIn(pending)
            && forall id :: id !in IdsIn(pending) ==> Lost(after.lost, id) == Lost(lost, id)
  {
    if pending != [] {
      var front, last := pending[..|pending| - 1], pending[|pending| - 1];
      assert BoundAll(pending, alone, lost, cells) == BoundOne(BoundAll(front, alone, lost, cells), last, alone);
      hide IdsIn, BoundAll, BoundOne, Lost;
      var before, after := BoundAll(front, alone, lost, cells), BoundAll(pending, alone, lost, cells);
      BoundKeepsSome(front, alone, lost, cells);
      BoundOneKeepsSome(before, last, alone);
      assert pending == front + [last];
      IdsInGrows(front, last);
      MoreKept(IdsIn(after.kept), IdsIn(before.kept), IdsIn(front), multiset(last));
      assert forall id :: id !in IdsIn(pending) ==> id !in IdsIn(front) && id !in multiset(last);
    }
  }

  lemma MoreKept<T>(after: multiset<T>, before: multiset<T>, front: multiset<T>, last: multiset<T>)
    requires after <= before + last && before <= front
    ensures after <= front + last
  {
  }

  lemma BoundOneKeepsSome(before: Bounded, last: Group, alone: set<Id>)
    ensures var after := BoundOne(before, last, alone);
            && IdsIn(after.kept) <= IdsIn(before.kept) + multiset(last)
            && forall id :: id !in multiset(last) ==> Lost(after.lost, id) == Lost(before.lost, id)
  {
    hide IdsIn;
    IdsInGrows(before.kept, last);
    assert Counted(last, alone) ==> last[0] in multiset(last);
  }

  lemma CountOne(before: Bounded, last: Group, alone: set<Id>)
    requires Counted(last, alone) && last[0] !in IdsIn(before.kept)
    ensures var after := BoundOne(before, last, alone);
            && Potential(after.kept, after.lost) <=
               Potential(before.kept, before.lost) + BoundedWeight(last, alone, before.lost)
            && (Fresh(before.kept, before.lost) ==> Fresh(after.kept, after.lost))
  {
    hide Weight, Potential, Fresh, IdsIn;
    var after := BoundOne(before, last, alone);
    SameLossesSamePotential(before.kept, before.lost, after.lost);
    PotentialAdds(before.kept, [last], after.lost);
    PotentialOfOne(last, after.lost);
    OneLoneWeight(last, before.lost, after.lost);
    NothingWeighs(after.lost);
    assert last == [last[0]] && NonEmpty(last) == [last];
    if Fresh(before.kept, before.lost) { CountedIsFresh(before, last, alone); }
  }

  lemma CountedIsFresh(before: Bounded, last: Group, alone: set<Id>)
    requires Counted(last, alone) && last[0] !in IdsIn(before.kept) && Fresh(before.kept, before.lost)
    ensures Fresh(BoundOne(before, last, alone).kept, BoundOne(before, last, alone).lost)
  {
    hide IdsIn;
    GroupsConcatenate(before.kept, [last]);
    OneGroup(last);
    assert last == [last[0]] && NonEmpty(last) == [last];
  }

  lemma OneLoneWeight(group: Group, lost: map<Id, nat>, after: map<Id, nat>)
    requires |group| == 1 && after == lost[group[0] := Lost(lost, group[0]) + 1]
    ensures Weight(group, after) <= if Weight(group, lost) > 0 then Weight(group, lost) - 1 else 0
  {
  }

  /** What is kept weighs at most the bounded potential, and no kept id is at the bound. */
  lemma {:induction false} BoundLowers(pending: seq<Group>, alone: set<Id>, lost: map<Id, nat>, cells: Cells)
    requires Once(IdsIn(pending)) && Fresh(pending, lost)
    ensures var after := BoundAll(pending, alone, lost, cells);
            && Potential(after.kept, after.lost) <= BoundedPotential(pending, alone, lost)
            && Fresh(after.kept, after.lost)
  {
    if pending != [] {
      hide Weight, Lost, BoundedWeight, BoundOne, Counted, Fresh, Once;
      var front, last := pending[..|pending| - 1], pending[|pending| - 1];
      PartOfOnce(IdsIn(front), multiset(last), IdsIn(pending));
      FreshPart(front, last, pending, lost);
      BoundLowers(front, alone, lost, cells);
      BoundKeepsSome(front, alone, lost, cells);
      BoundOneLowers(BoundAll(front, alone, lost, cells), last, alone, front, lost);
    } else {
      NothingWeighs(lost);
    }
  }

  lemma FreshPart(front: seq<Group>, last: Group, all: seq<Group>, lost: map<Id, nat>)
    requires IdsIn(all) == IdsIn(front) + multiset(last) && Fresh(all, lost)
    ensures Fresh(front, lost)
    ensures forall id :: id in last ==> Lost(lost, id) < OOM_ROUNDS
  {
    hide Lost;
    forall id | id in last
      ensures Lost(lost, id) < OOM_ROUNDS
    {
      assert id in multiset(last);
    }
  }

  lemma BoundOneLowers(before: Bounded, last: Group, alone: set<Id>, front: seq<Group>, lost: map<Id, nat>)
    requires Fresh(before.kept, before.lost)
    requires forall id :: id in last ==> Lost(lost, id) < OOM_ROUNDS
    requires IdsIn(before.kept) <= IdsIn(front)
    requires forall id :: id in IdsIn(front) ==> id !in multiset(last)
    requires forall id :: id !in IdsIn(front) ==> Lost(before.lost, id) == Lost(lost, id)
    ensures var after := BoundOne(before, last, alone);
            && Potential(after.kept, after.lost) <=
               Potential(before.kept, before.lost) + BoundedWeight(last, alone, lost)
            && Fresh(after.kept, after.lost)
  {
    assert forall id :: id in last ==> id in multiset(last);
    SameWeight(last, before.lost, lost);
    hide Weight, Lost, Potential, IdsIn, Fresh, BoundOne;
    if Counted(last, alone) {
      CountOne(before, last, alone);
    } else {
      KeepOne(before, last, alone);
    }
  }

  lemma SameWeight(group: Group, lost: map<Id, nat>, other: map<Id, nat>)
    requires forall id :: id in group ==> Lost(lost, id) == Lost(other, id)
    ensures Weight(group, lost) == Weight(group, other)
  {
    hide Lost;
  }

  lemma KeepOne(before: Bounded, last: Group, alone: set<Id>)
    requires !Counted(last, alone) && Fresh(before.kept, before.lost)
    requires forall id :: id in last ==> Lost(before.lost, id) < OOM_ROUNDS
    ensures var after := BoundOne(before, last, alone);
            && Potential(after.kept, after.lost) ==
               Potential(before.kept, before.lost) + Weight(last, before.lost)
            && Fresh(after.kept, after.lost)
  {
    hide Weight, Lost, Potential;
    PotentialAdds(before.kept, [last], before.lost);
    PotentialOfOne(last, before.lost);
    assert (before.kept + [last])[..|before.kept|] == before.kept;
    assert forall id :: id in multiset(last) ==> id in last;
  }

  // ----- whole runs

  /** What a state is charged: its rounds so far, one more if it waits, and the potential of what is owed. */
  function Cost(s: State): nat {
    s.rounds + (if s.phase.Waiting? then 1 else 0) + Potential(Owed(s), s.oomLost)
  }

  /** The cost stays within the bound; the potential never passed the first round's; no id to run is at the bound. */
  ghost predicate Within(s: State, first: nat, whole: multiset<Id>) {
    && Cost(s) <= RETRIES + 1 + first
    && Potential(Owed(s), s.oomLost) <= first
    && Fresh(Owed(s), s.oomLost)
    && Covers(s, whole)
  }

  /** What a finished round hands on: no heavier, and strictly lighter when it was judged out of memory. */
  lemma RoundLightens(s: State, call: Call, whole: multiset<Id>)
    requires call.Folds? && Planned(s, call) && Covers(s, whole) && Once(whole)
    requires Fresh(s.phase.items, s.oomLost)
    requires Gathered(s, call.report, call.submission, call.now).Some?
    ensures var after := After(s, call, 0.0);
            var oom := Judged(call.report, AnyKilled(call.report));
            && Potential(Handed(s, call), after.oomLost) <= Potential(s.phase.items, s.oomLost)
            && (oom ==> Potential(Handed(s, call), after.oomLost) < Potential(s.phase.items, s.oomLost))
            && Fresh(Handed(s, call), after.oomLost)
  {
    hide FoldTo, Reported, BoundAll, CellAll, Judged, AnyKilled, RanAlone, Rearranges, IdsIn, Potential, Fresh, Once,
         BoundedPotential, Celled;
    var report, items := call.report, s.phase.items;
    var folded := FoldTo(report, items, s.cells, |items|).value;
    var alone := RanAlone(items, report);
    FoldLeavesLighter(report, items, s.cells, |items|, s.oomLost);
    assert items[..|items|] == items;
    FoldConserves(report, items, s.cells);
    FoldKeepsCells(report, items, s.cells, |items|);
    LeftIsPart(folded, items, s.cells, whole, s.oomLost);
    if Judged(report, AnyKilled(report)) {
      JudgedRanSomething(report, items);
      BoundLowers(folded.left, alone, s.oomLost, folded.cells);
    }
  }

  lemma LeftIsPart(settled: Settled, items: seq<Group>, cells: Cells, whole: multiset<Id>, lost: map<Id, nat>)
    requires IdsIn(items) + Celled(cells) == whole && IdsIn(settled.left) + Celled(settled.cells) == whole
    requires Fresh(items, lost) && Once(whole)
    requires forall id :: id in cells ==> id in settled.cells
    ensures Once(IdsIn(settled.left)) && Fresh(settled.left, lost)
  {
    PartOfOnce(IdsIn(settled.left), Celled(settled.cells), whole);
    forall id | id in IdsIn(settled.left)
      ensures id in IdsIn(items)
    {
      assert id in whole && id !in Celled(settled.cells);
      assert id !in cells;
    }
  }

  lemma {:induction false} FoldKeepsCells(report: Report, items: seq<Group>, cells: Cells, k: nat)
    requires Reported(items, report) && k <= |items| && FoldTo(report, items, cells, k).Some?
    ensures forall id :: id in cells ==> id in FoldTo(report, items, cells, k).value.cells
  {
    hide FoldItem, FoldTo;
    FoldUnfolds(report, items, cells, k);
    if k > 0 {
      FoldKeepsCells(report, items, cells, k - 1);
    }
  }

  /** Every call keeps the state within the bound of its first round, though a round submitted again may cost one
      more. */
  lemma CallStaysWithin(s: State, call: Call, first: nat, whole: multiset<Id>, stallMinutes: real)
    requires Within(s, first, whole) && Once(whole) && Planned(s, call)
    ensures Within(After(s, call, stallMinutes), first, whole)
  {
    CallCovers(s, call, whole, stallMinutes);
    hide Covers, Once, Fresh, Potential, CellAll;
    if call.Folds? {
      FoldStaysWithin(s, call, first, whole);
    } else {
      NothingOwed(s.oomLost);
      RetryStaysWithin(s, call, first, stallMinutes);
    }
  }

  lemma NothingOwed(lost: map<Id, nat>)
    ensures Potential([], lost) == 0 && Fresh([], lost)
  {
  }

  lemma RetryStaysWithin(s: State, call: Call, first: nat, stallMinutes: real)
    requires call.Retries? && Planned(s, call)
    requires Cost(s) <= RETRIES + 1 + first && Potential(Owed(s), s.oomLost) <= first && Fresh(Owed(s), s.oomLost)
    ensures var after := After(s, call, stallMinutes);
            && Cost(after) <= RETRIES + 1 + first
            && Potential(Owed(after), after.oomLost) <= first
            && Fresh(Owed(after), after.oomLost)
  {
    hide Potential, Fresh, CellAll;
    NothingOwed(s.oomLost);
    if call.submission.Placed? {
      RearrangedPotential(s.phase.pending, call.submission.items, s.oomLost);
      RearrangedIds(s.phase.pending, call.submission.items);
      SameIdsFresh(s.phase.pending, call.submission.items, s.oomLost);
    }
  }

  lemma SameIdsFresh(a: seq<Group>, b: seq<Group>, lost: map<Id, nat>)
    requires IdsIn(a) == IdsIn(b)
    ensures Fresh(a, lost) ==> Fresh(b, lost)
  {
  }

  lemma FoldStaysWithin(s: State, call: Call, first: nat, whole: multiset<Id>)
    requires call.Folds? && Within(s, first, whole) && Once(whole) && Planned(s, call)
    ensures var after := After(s, call, 0.0);
            && Cost(after) <= RETRIES + 1 + first
            && Potential(Owed(after), after.oomLost) <= first
            && Fresh(Owed(after), after.oomLost)
  {
    if Gathered(s, call.report, call.submission, call.now).Some? {
      RoundLightens(s, call, whole);
      HandedOn(s, call);
      hide Potential, Fresh, CellAll, Covers, Once, FoldTo, Reported, BoundAll, Judged, RanAlone, Handed;
      NothingOwed(After(s, call, 0.0).oomLost);
    }
  }

  /** After a folded round what is owed is what was handed on, at one more round or waiting for it, or nothing. */
  lemma HandedOn(s: State, call: Call)
    requires call.Folds? && Planned(s, call) && Gathered(s, call.report, call.submission, call.now).Some?
    ensures var after := After(s, call, 0.0);
            var handed := Handed(s, call);
            && (after.phase.Recorded? ==> after.rounds == s.rounds)
            && (!after.phase.Recorded? ==>
                  && (s.rounds <= RETRIES || Judged(call.report, AnyKilled(call.report)))
                  && after.rounds == s.rounds + (if after.phase.InFlight? then 1 else 0)
                  && Potential(Owed(after), after.oomLost) == Potential(handed, after.oomLost)
                  && IdsIn(Owed(after)) == IdsIn(handed))
  {
    hide Potential, IdsIn, CellAll, FoldTo, Reported, BoundAll, Judged, RanAlone;
    if call.submission.Placed? {
      RearrangedPotential(Handed(s, call), call.submission.items, After(s, call, 0.0).oomLost);
      RearrangedIds(Handed(s, call), call.submission.items);
    }
  }

  /**
   THE ROUNDS ARE BOUNDED. Against any cluster, over any run of gather calls from a first round in flight,
   the rounds submitted stay within RETRIES + 1 plus the first round's potential -- four per id less one for a group,
   three for a lone id -- although rounds judged out of memory are not counted against RETRIES.
   */
  lemma {:induction false} RoundsAreBounded(s: State, calls: seq<Call>, first: nat, whole: multiset<Id>,
                                            stallMinutes: real)
    requires Within(s, first, whole) && Once(whole) && AllPlanned(s, calls, stallMinutes)
    ensures var end := Run(s, calls, stallMinutes);
            && Within(end, first, whole)
            && end.rounds <= RETRIES + 1 + first
    decreases |calls|
  {
    if calls != [] {
      hide After, Within, Once;
      CallStaysWithin(s, calls[0], first, whole, stallMinutes);
      RoundsAreBounded(After(s, calls[0], stallMinutes), calls[1..], first, whole, stallMinutes);
    }
  }

  /** The first round in flight is within the bound of its own potential. */
  lemma FirstRoundIsWithin(s: State, whole: multiset<Id>)
    requires s.phase.InFlight? && s.rounds == 1 && s.oomLost == map[] && Covers(s, whole)
    ensures Within(s, Potential(s.phase.items, map[]), whole)
  {
    hide Potential, Covers;
  }

  /** How many calls of a run fold a round. */
  function Folds(s: State, calls: seq<Call>, stallMinutes: real): nat
    requires AllPlanned(s, calls, stallMinutes)
    decreases |calls|
  {
    if calls == [] then 0
    else
      (if calls[0].Folds? && Gathered(s, calls[0].report, calls[0].submission, calls[0].now).Some? then 1 else 0) +
      Folds(After(s, calls[0], stallMinutes), calls[1..], stallMinutes)
  }

  lemma OneFold(s: State, call: Call, stallMinutes: real)
    requires Planned(s, call)
    ensures var after := After(s, call, stallMinutes);
            var folds := call.Folds? && Gathered(s, call.report, call.submission, call.now).Some?;
            (if folds then 1 else 0) + s.rounds + (if after.phase.InFlight? then 1 else 0) ==
            after.rounds + (if s.phase.InFlight? then 1 else 0)
  {
    hide FoldTo, Reported, BoundAll, Judged, RanAlone, CellAll, Rearranges, AnyKilled;
  }

  /** Each round is folded at most once, and the one in flight not yet. */
  lemma {:induction false} FoldsAreRounds(s: State, calls: seq<Call>, stallMinutes: real)
    requires AllPlanned(s, calls, stallMinutes)
    ensures var end := Run(s, calls, stallMinutes);
            Folds(s, calls, stallMinutes) + s.rounds + (if end.phase.InFlight? then 1 else 0) ==
            end.rounds + (if s.phase.InFlight? then 1 else 0)
    decreases |calls|
  {
    if calls != [] {
      hide After, Gathered, Planned;
      OneFold(s, calls[0], stallMinutes);
      FoldsAreRounds(After(s, calls[0], stallMinutes), calls[1..], stallMinutes);
    }
  }

  /** A wait ends: tried past the stall bound with still no room, the run is recorded with what ran. */
  lemma WaitingEnds(s: State, submission: Submission, now: real, stallMinutes: real)
    requires s.phase.Waiting? && (now - s.phase.since) / 60.0 >= stallMinutes
    ensures !Retried(s, submission, now, stallMinutes).phase.Waiting?
  {
    hide CellAll;
  }

  // ----- when a run ends

  /** A call after which the run is not where it was: a fold that does not fail, or a retry with room or out of time. */
  predicate Advances(s: State, call: Call, stallMinutes: real)
    requires Possible(s, call)
  {
    match call
    case Folds(report, submission, now) => Gathered(s, report, submission, now).Some?
    case Retries(submission, now) => !submission.Full? || (now - s.phase.since) / 60.0 >= stallMinutes
  }

  predicate AllAdvance(s: State, calls: seq<Call>, stallMinutes: real)
    requires AllPlanned(s, calls, stallMinutes)
    decreases |calls|
  {
    calls == [] ||
    (Advances(s, calls[0], stallMinutes) && AllAdvance(After(s, calls[0], stallMinutes), calls[1..], stallMinutes))
  }

  /** How many more calls a run of at most `most` rounds takes. */
  function Left(s: State, most: nat): int {
    match s.phase
    case InFlight(_, _) => 2 * (most - s.rounds) + 2
    case Waiting(_, _) => 2 * (most - s.rounds) + 1
    case Recorded => 0
  }

  lemma LeftOfWithin(s: State, first: nat, whole: multiset<Id>)
    requires Within(s, first, whole)
    ensures Left(s, RETRIES + 1 + first) >= if s.phase.Recorded? then 0 else 1
  {
    hide Potential, Covers, Fresh;
  }

  lemma CallTakesOne(s: State, call: Call, first: nat, whole: multiset<Id>, stallMinutes: real)
    requires Within(s, first, whole) && Once(whole) && Planned(s, call) && Advances(s, call, stallMinutes)
    ensures Within(After(s, call, stallMinutes), first, whole)
    ensures Left(After(s, call, stallMinutes), RETRIES + 1 + first) + 1 <= Left(s, RETRIES + 1 + first)
  {
    hide Within, Once, Rearranges, Reported, Handed, Potential, IdsIn, CellAll;
    CallStaysWithin(s, call, first, whole, stallMinutes);
    LeftOfWithin(s, first, whole);
    if call.Folds? {
      hide Gathered;
      HandedOn(s, call);
    }
  }

  /**
   THE RUN ENDS WHERE NO FOLD FAILS: over any run of gather calls that advance, as many calls as the first round leaves
   record it, at most two for each round it may submit; until then it is in flight or waiting.
   */
  lemma {:induction false} RunEnds(s: State, calls: seq<Call>, first: nat, whole: multiset<Id>, stallMinutes: real)
    requires Within(s, first, whole) && Once(whole)
    requires AllPlanned(s, calls, stallMinutes) && AllAdvance(s, calls, stallMinutes)
    ensures var end, most := Run(s, calls, stallMinutes), RETRIES + 1 + first;
            && |calls| + Left(end, most) <= Left(s, most)
            && Left(end, most) >= (if end.phase.Recorded? then 0 else 1)
            && (|calls| == Left(s, most) ==> end.phase.Recorded?)
    decreases |calls|
  {
    hide Within, Once, After, Advances, Left;
    if calls == [] {
      LeftOfWithin(s, first, whole);
    } else {
      CallTakesOne(s, calls[0], first, whole, stallMinutes);
      RunEnds(After(s, calls[0], stallMinutes), calls[1..], first, whole, stallMinutes);
    }
  }

  /** From its first round a run folds at most RETRIES + 1 rounds plus that round's potential, and none is in flight
      once it has folded as many. */
  lemma FoldsAreBounded(s: State, calls: seq<Call>, whole: multiset<Id>, stallMinutes: real)
    requires s.phase.InFlight? && s.rounds == 1 && s.oomLost == map[] && Covers(s, whole) && Once(whole)
    requires AllPlanned(s, calls, stallMinutes)
    ensures var most := RETRIES + 1 + Potential(s.phase.items, map[]);
            && Folds(s, calls, stallMinutes) <= most
            && (Folds(s, calls, stallMinutes) == most ==> !Run(s, calls, stallMinutes).phase.InFlight?)
  {
    hide Potential, Covers, Once, Within, Run, Folds, AllPlanned;
    FirstRoundIsWithin(s, whole);
    RoundsAreBounded(s, calls, Potential(s.phase.items, map[]), whole, stallMinutes);
    FoldsAreRounds(s, calls, stallMinutes);
  }

  /** A gather fails exactly where the fold meets an item that breaks it. */
  lemma GatherFailsExactly(s: State, report: Report, submission: Submission, now: real)
    requires s.phase.InFlight? && Reported(s.phase.items, report)
    ensures Gathered(s, report, submission, now).None? <==>
            exists i :: 0 <= i < |s.phase.items| && Breaks(report, s.phase.items, i)
  {
    hide FoldTo, Reported, BoundAll, Judged, RanAlone, CellAll, AnyKilled, Breaks;
    FoldFailsExactly(report, s.phase.items, s.cells, |s.phase.items|);
  }

  /** A call whose report breaks the fold of the round in flight. */
  predicate BreaksFold(items: seq<Group>, call: Call) {
    call.Folds? && |call.report.folds| == |items| && exists i :: 0 <= i < |items| && Breaks(call.report, items, i)
  }

  /** A BROKEN RUN NEVER ENDS: gathered again and again with reports that break its fold, it stays in flight as it
      was. */
  lemma {:induction false} BrokenForEver(s: State, calls: seq<Call>, stallMinutes: real)
    requires s.phase.InFlight? && AllPlanned(s, calls, stallMinutes)
    requires forall c :: 0 <= c < |calls| ==> BreaksFold(s.phase.items, calls[c])
    ensures Run(s, calls, stallMinutes) == s
    decreases |calls|
  {
    hide Breaks, Reported, Gathered, Rearranges;
    if calls != [] {
      assert BreaksFold(s.phase.items, calls[0]);
      GatherFailsExactly(s, calls[0].report, calls[0].submission, calls[0].now);
      assert forall c :: 0 <= c < |calls[1..]| ==> calls[1..][c] == calls[c + 1];
      BrokenForEver(s, calls[1..], stallMinutes);
    }
  }

  /** What breaks a fold: one test, its cell reported, its item never closed, its shard timed out at its top wall. */
  lemma AFoldThatBreaks()
    ensures var items: seq<Group> := [["a::t"]];
            var folded := Folded(map["a::t" := Cell(Ok, Ok)], map["a::t" := 1.0], None, Some("a::t"));
            var report := Report.Report([folded], [(0, 1)], [3600.0], [TimedOut], [1024.0], {}, map[0 := 3600.0]);
            && Reported(items, report)
            && Breaks(report, items, 0)
            && FoldTo(report, items, map[], 1).None?
  {
    var items: seq<Group> := [["a::t"]];
    var folded := Folded(map["a::t" := Cell(Ok, Ok)], map["a::t" := 1.0], None, Some("a::t"));
    var report := Report.Report([folded], [(0, 1)], [3600.0], [TimedOut], [1024.0], {}, map[0 := 3600.0]);
    assert ["a::t"][..0] == [];
    assert Unfinished(["a::t"], {"a::t"}) == [];
    assert ShardOf([(0, 1)], 0) == Some(0);
    FoldFailsExactly(report, items, map[], 1);
  }
}
