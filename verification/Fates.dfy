/**
 What becomes of every id of a round: what its item's ending makes of it, and what a gather, or a waiting retry, does
 with what is left. Written on closing codes, shard states and counts, id by id.
 */
module Fates {
  import opened Options
  import opened PytestItem
  import opened Measured
  import opened Records
  import opened Gather
  import opened Rounds

  // ----- how an item ends

  /** Cut by the wall of shard `n`, at the longest wall any partition grants. */
  predicate Topped(report: Report, folded: Folded, n: nat)
    requires n < |report.states| == |report.walls|
  {
    !Exits(folded) && report.states[n].TimedOut? && n in report.tops && report.walls[n] >= report.tops[n] - 60.0
  }

  /** The one id left was killed for memory, in a shard at the most any grant gives. */
  predicate AloneAtCeiling(report: Report, folded: Folded, rest: Group, n: nat)
    requires n < |report.states| == |report.walls|
  {
    && !Exits(folded) && !Topped(report, folded, n)
    && |rest| == 1 && report.states[n].RanOutOfMemory? && n in report.atCeiling
  }

  /** The test an item was running when it exited, if that is known. */
  predicate RunningAtExit(folded: Folded, rest: Group, id: Id) {
    Exits(folded) && folded.started == Some(id) && id in rest
  }

  /** The ids of the groups, one group after the other. */
  function Joined(groups: seq<Group>): Group {
    if groups == [] then [] else Joined(groups[..|groups| - 1]) + groups[|groups| - 1]
  }

  lemma JoinedTwo(first: Group, second: Group)
    ensures Joined(NonEmpty(first) + NonEmpty(second)) == first + second
    ensures Joined(NonEmpty(first)) == first
    ensures Joined([]) == []
  {
    assert [first][..0] == [] && [second][..0] == [] && ([first] + [second])[..1] == [first];
    assert Joined([first]) == first && Joined([second]) == second && Joined([first] + [second]) == first + second;
    assert NonEmpty(first) + [] == NonEmpty(first) && [] + NonEmpty(second) == NonEmpty(second);
  }

  lemma {:induction false} UnfinishedMembers(ids: Group, cells: set<Id>)
    ensures forall id :: id in Unfinished(ids, cells) <==> id in ids && id !in cells
  {
    if ids != [] {
      UnfinishedMembers(ids[..|ids| - 1], cells);
      assert ids == ids[..|ids| - 1] + [ids[|ids| - 1]];
    }
  }

  predicate Given(settled: Settled, id: Id, status: Status) {
    id in settled.cells && settled.cells[id] == Cell(status, Ok)
  }

  /** A reported id keeps its cell, and no id of another item gets one. */
  predicate KeepsReports(folded: Folded, rest: Group, settled: Settled) {
    && (forall id :: id in folded.cells ==> id in settled.cells && settled.cells[id] == folded.cells[id])
    && (forall id :: id in settled.cells && id !in folded.cells ==> id in rest)
  }

  /** The item exited: the test it was running is ERROR and the others run again together; with none known, all are
      PENDING. */
  ghost predicate ExitFate(folded: Folded, rest: Group, settled: Settled) {
    var known := exists id :: RunningAtExit(folded, rest, id);
    && (forall id :: id in rest ==>
          if RunningAtExit(folded, rest, id) then Given(settled, id, Error)
          else if known then id !in settled.cells
          else Given(settled, id, Pending))
    && |settled.left| <= 1
    && Joined(settled.left) == if known then Unfinished(rest, {folded.started.value}) else []
  }

  /** The first id left gets its cell, and the others run again together. */
  predicate FirstFate(rest: Group, settled: Settled, status: Status) {
    && rest != [] && Given(settled, rest[0], status)
    && (forall id :: id in rest && id != rest[0] ==> id !in settled.cells)
    && |settled.left| <= 1 && Joined(settled.left) == rest[1..]
  }

  /** Nothing gets a cell, and all run again in order, in two halves. */
  predicate HalvedFate(rest: Group, settled: Settled) {
    && (forall id :: id in rest ==> id !in settled.cells)
    && Joined(settled.left) == rest
    && var half := (|rest| + 1) / 2;
       settled.left == if rest == [] then [] else if |rest| == 1 then [rest] else [rest[..half], rest[half..]]
  }

  /**
   WHAT ENDS AN ITEM, AND WHAT THAT MAKES OF ITS IDS, for an item of shard `n`: an exit, with what was running ERROR or
   all PENDING; the top wall, with the first id left TIMEOUT; a kill at the memory ceiling, with the lone id left
   OUT_OF_MEMORY; and in every other ending, a signal or none, all that is left run again.
   */
  lemma WhatEndsAnItem(report: Report, items: seq<Group>, i: nat, n: nat)
    requires Reported(items, report) && i < |items| && n < |report.shards|
    requires report.shards[n].0 <= i < report.shards[n].1
    requires FoldItem(report, i, items[i], report.folds[i]).Some?
    ensures var folded, settled := report.folds[i], FoldItem(report, i, items[i], report.folds[i]).value;
            var rest := Unfinished(items[i], folded.cells.Keys);
            && KeepsReports(folded, rest, settled)
            && (Exits(folded) ==> ExitFate(folded, rest, settled))
            && (Topped(report, folded, n) ==> FirstFate(rest, settled, Timeout))
            && (AloneAtCeiling(report, folded, rest, n) ==> FirstFate(rest, settled, OutOfMemory))
            && (!Exits(folded) && !Topped(report, folded, n) && !AloneAtCeiling(report, folded, rest, n) ==>
                  HalvedFate(rest, settled))
  {
    var folded := report.folds[i];
    var rest := Unfinished(items[i], folded.cells.Keys);
    OnlyShard(report.shards, |items|, n, i);
    UnfinishedMembers(items[i], folded.cells.Keys);
    hide Unfinished, Tiles, Joined, Halves, Exited, KeepsReports, ExitFate, FirstFate, HalvedFate;
    if Exits(folded) {
      ExitEnds(folded, rest);
    } else if Topped(report, folded, n) {
      assert rest != [];
      FirstEnds(folded, rest, Timeout);
    } else if AloneAtCeiling(report, folded, rest, n) {
      FirstEnds(folded, rest, OutOfMemory);
      assert rest[1..] == [];
    } else {
      HalvedEnds(folded, rest);
    }
  }

  lemma ExitEnds(folded: Folded, rest: Group)
    requires Exits(folded) && forall id :: id in rest ==> id !in folded.cells
    ensures KeepsReports(folded, rest, Exited(folded, rest)) && ExitFate(folded, rest, Exited(folded, rest))
  {
    JoinedTwo([], []);
    if folded.started.Some? && folded.started.value in rest {
      var hit := folded.started.value;
      assert RunningAtExit(folded, rest, hit);
      JoinedTwo(Unfinished(rest, {hit}), []);
      hide Unfinished, Joined;
    }
  }

  lemma FirstEnds(folded: Folded, rest: Group, status: Status)
    requires rest != [] && forall id :: id in rest ==> id !in folded.cells
    ensures var settled := Settled(folded.cells[rest[0] := Cell(status, Ok)], NonEmpty(rest[1..]));
            KeepsReports(folded, rest, settled) && FirstFate(rest, settled, status)
  {
    JoinedTwo(rest[1..], []);
    hide Joined;
  }

  lemma HalvedEnds(folded: Folded, rest: Group)
    requires forall id :: id in rest ==> id !in folded.cells
    ensures var settled := Settled(folded.cells, Halves(rest));
            KeepsReports(folded, rest, settled) && HalvedFate(rest, settled)
  {
    var half := (|rest| + 1) / 2;
    JoinedTwo(rest[..half], rest[half..]);
    assert rest[..half] + rest[half..] == rest;
    hide Joined;
    if |rest| == 1 { assert rest[..half] == rest && rest[half..] == []; }
  }

  // ----- a round, item by item

  /** What item `i` ends as. */
  function Ended(report: Report, items: seq<Group>, i: nat): Settled
    requires i < |items| == |report.folds|
  {
    var one := FoldItem(report, i, items[i], report.folds[i]);
    if one.Some? then one.value else Settled(map[], [])
  }

  /** No id is in two items, nor in an item and celled. */
  predicate Apart(items: seq<Group>, cells: Cells) {
    && (forall i, j, id :: 0 <= i < j < |items| && id in items[i] ==> id !in items[j])
    && (forall i, id :: 0 <= i < |items| && id in items[i] ==> id !in cells)
  }

  lemma {:induction false} IdsInGroups(groups: seq<Group>)
    ensures forall g, id :: g in groups && id in g ==> id in IdsIn(groups)
    ensures forall id :: id in IdsIn(groups) ==> exists g :: g in groups && id in g
  {
    if groups != [] {
      var front, last := groups[..|groups| - 1], groups[|groups| - 1];
      IdsInGroups(front);
      assert groups == front + [last];
      forall id | id in IdsIn(groups)
        ensures exists g :: g in groups && id in g
      {
        if id in multiset(last) {
          assert last in groups && id in last;
        } else {
          assert id in IdsIn(front);
          var g :| g in front && id in g;
          assert g in groups;
        }
      }
    }
  }

  lemma {:induction false} OnceIsApart(items: seq<Group>, cells: Cells)
    requires Once(IdsIn(items) + Celled(cells))
    ensures Apart(items, cells)
  {
    if items != [] {
      var front, last := items[..|items| - 1], items[|items| - 1];
      LastIsApart(front, last, cells);
      assert items == front + [last];
      hide Once, IdsIn, Celled;
      OnceIsApart(front, cells);
      OneMoreApart(front, last, cells);
    }
  }

  lemma LastIsApart(front: seq<Group>, last: Group, cells: Cells)
    requires Once(IdsIn(front + [last]) + Celled(cells))
    ensures Once(IdsIn(front) + Celled(cells))
    ensures forall id :: id in last ==> id !in IdsIn(front) && id !in cells
  {
    var others := IdsIn(front) + Celled(cells);
    IdsInGrows(front, last);
    assert others + multiset(last) == IdsIn(front + [last]) + Celled(cells);
    assert multiset(last) + others == IdsIn(front + [last]) + Celled(cells);
    hide IdsIn;
    PartOfOnce(others, multiset(last), IdsIn(front + [last]) + Celled(cells));
    PartOfOnce(multiset(last), others, IdsIn(front + [last]) + Celled(cells));
    assert forall id :: id in last ==> id in multiset(last);
    assert forall id :: id in cells ==> id in Celled(cells);
  }

  lemma OneMoreApart(front: seq<Group>, last: Group, cells: Cells)
    requires Apart(front, cells) && forall id :: id in last ==> id !in IdsIn(front) && id !in cells
    ensures Apart(front + [last], cells)
  {
    hide IdsIn;
    IdsInGroups(front);
    forall i, id | 0 <= i < |front| && id in front[i]
      ensures id !in last
    {
      assert front[i] in front;
    }
  }

  predicate CellsOnly(settled: Settled, ids: Group) {
    forall id :: id in settled.cells ==> id in ids
  }

  /** An item gives cells only to its own ids. */
  lemma CellsItsOwn(report: Report, items: seq<Group>, i: nat)
    requires Reported(items, report) && i < |items|
    ensures CellsOnly(Ended(report, items, i), items[i])
  {
    hide FoldItem, Tiles, Unfinished, ExitFate, FirstFate, HalvedFate;
    if FoldItem(report, i, items[i], report.folds[i]).Some? {
      UnfinishedMembers(items[i], report.folds[i].cells.Keys);
      var n := ShardHolds(report.shards, |items|, i);
      WhatEndsAnItem(report, items, i, n);
    }
  }

  /** Every item is in a shard. */
  lemma {:induction false} ShardHolds(shards: seq<(nat, nat)>, items: nat, i: nat) returns (n: nat)
    requires Tiles(shards, items) && i < items
    ensures n < |shards| && shards[n].0 <= i < shards[n].1
  {
    n := 0;
    while shards[n].1 <= i
      invariant n < |shards| && shards[n].0 <= i
    {
      n := n + 1;
    }
  }

  /** The round so far is what its items end as: their cells beside the old ones, and their groups. */
  ghost predicate FoldedSo(report: Report, items: seq<Group>, cells: Cells, k: nat, all: Settled)
    requires k <= |items| == |report.folds|
  {
    && (forall id :: id in cells ==> id in all.cells && all.cells[id] == cells[id])
    && (forall i, id :: 0 <= i < k && id in items[i] ==>
          && (id in all.cells <==> id in Ended(report, items, i).cells)
          && (id in all.cells ==> all.cells[id] == Ended(report, items, i).cells[id]))
    && (forall id :: id in all.cells && id !in cells ==> exists i :: 0 <= i < k && id in items[i])
    && (forall g :: g in all.left <==> exists i :: 0 <= i < k && g in Ended(report, items, i).left)
  }

  lemma {:induction false} FoldsItemByItem(report: Report, items: seq<Group>, cells: Cells, k: nat)
    requires Reported(items, report) && k <= |items| && Apart(items, cells)
    requires FoldTo(report, items, cells, k).Some?
    ensures FoldedSo(report, items, cells, k, FoldTo(report, items, cells, k).value)
  {
    hide FoldItem, FoldTo, Tiles;
    FoldUnfolds(report, items, cells, k);
    if k > 0 {
      hide FoldedSo;
      FoldsItemByItem(report, items, cells, k - 1);
      CellsItsOwn(report, items, k - 1);
      OneItemMore(report, items, cells, k, FoldTo(report, items, cells, k - 1).value);
    }
  }

  lemma OneItemMore(report: Report, items: seq<Group>, cells: Cells, k: nat, before: Settled)
    requires 0 < k <= |items| == |report.folds| && Apart(items, cells)
    requires FoldedSo(report, items, cells, k - 1, before)
    requires CellsOnly(Ended(report, items, k - 1), items[k - 1])
    ensures var one := Ended(report, items, k - 1);
            FoldedSo(report, items, cells, k, Settled(before.cells + one.cells, before.left + one.left))
  {
    hide Ended;
    var one := Ended(report, items, k - 1);
    var all := Settled(before.cells + one.cells, before.left + one.left);
    forall i, id | 0 <= i < k && id in items[i]
      ensures id in all.cells <==> id in Ended(report, items, i).cells
      ensures id in all.cells ==> all.cells[id] == Ended(report, items, i).cells[id]
    {
      if i == k - 1 {
        assert id !in cells && forall j :: 0 <= j < k - 1 ==> id !in items[j];
      }
    }
    forall id | id in all.cells && id !in cells
      ensures exists i :: 0 <= i < k && id in items[i]
    {
      if id in one.cells { assert id in items[k - 1]; }
    }
    forall g
      ensures g in all.left <==> exists i :: 0 <= i < k && g in Ended(report, items, i).left
    {
      if g in one.left { assert 0 <= k - 1 < k; }
    }
  }

  // ----- what a gather does with what is left

  /** Some shard ran out of memory, or a signal closed some item and no shard timed out. */
  predicate OutOfMemoryRound(report: Report) {
    || (exists n :: 0 <= n < |report.states| && report.states[n].RanOutOfMemory?)
    || ((exists i :: 0 <= i < |report.folds| && report.folds[i].done.Some? && report.folds[i].done.value.code < 0)
        && forall n :: 0 <= n < |report.states| ==> !report.states[n].TimedOut?)
  }

  /** A lone id that an item of its own ran, in a shard that did not time out. */
  predicate RanByItself(report: Report, items: seq<Group>, g: Group)
    requires Reported(items, report)
  {
    |g| == 1 && exists i, n :: 0 <= i < |items| && 0 <= n < |report.shards| && items[i] == g
                               && report.shards[n].0 <= i < report.shards[n].1 && !report.states[n].TimedOut?
  }

  /** This memory round is counted against `g`, and the last it survives. */
  predicate GivenUp(report: Report, s: State, g: Group)
    requires s.phase.InFlight? && Reported(s.phase.items, report)
  {
    && OutOfMemoryRound(report) && RanByItself(report, s.phase.items, g)
    && Lost(s.oomLost, g[0]) + 1 >= 3
  }

  lemma RanAloneExactly(report: Report, items: seq<Group>, g: Group)
    requires Reported(items, report)
    ensures Counted(g, RanAlone(items, report)) <==> RanByItself(report, items, g)
  {
    if |g| == 1 {
      forall i | 0 <= i < |items| && items[i] == g
        ensures InTimedOutShard(report, i) || RanByItself(report, items, g)
        ensures forall n :: 0 <= n < |report.shards| && report.shards[n].0 <= i < report.shards[n].1 ==>
                              (InTimedOutShard(report, i) <==> report.states[n].TimedOut?)
      {
        ShardOfItem(report, items, i);
      }
      if g[0] in RanAlone(items, report) {
        var i :| 0 <= i < |items| && |items[i]| == 1 && !InTimedOutShard(report, i) && items[i][0] == g[0];
        assert items[i] == g;
      }
    }
  }

  lemma ShardOfItem(report: Report, items: seq<Group>, i: nat)
    requires Reported(items, report) && i < |items|
    ensures exists n :: 0 <= n < |report.shards| && report.shards[n].0 <= i < report.shards[n].1
    ensures forall n :: 0 <= n < |report.shards| && report.shards[n].0 <= i < report.shards[n].1 ==>
                          (InTimedOutShard(report, i) <==> report.states[n].TimedOut?)
  {
    hide Tiles;
    var m := ShardHolds(report.shards, |items|, i);
    forall n | 0 <= n < |report.shards| && report.shards[n].0 <= i < report.shards[n].1 {
      OnlyShard(report.shards, |items|, n, i);
    }
  }

  /** Bounding, id by id: a lone id that ran alone is counted, and dropped with its cell at the bound. */
  lemma {:induction false} BoundFate(pending: seq<Group>, alone: set<Id>, lost: map<Id, nat>, cells: Cells)
    requires Apart(pending, cells)
    ensures BoundedTo(pending, alone, lost, cells, BoundAll(pending, alone, lost, cells))
  {
    if pending != [] {
      var front, last := pending[..|pending| - 1], pending[|pending| - 1];
      assert pending == front + [last];
      FrontApart(pending, cells);
      BoundFate(front, alone, lost, cells);
      LastApart(pending, cells);
      assert BoundAll(pending, alone, lost, cells) == BoundOne(BoundAll(front, alone, lost, cells), last, alone);
      hide BoundAll, Apart, BoundOne, BoundedTo;
      OneBoundMore(front, last, alone, lost, cells, BoundAll(front, alone, lost, cells));
    }
  }

  predicate GivenOver(g: Group, alone: set<Id>, lost: map<Id, nat>) {
    Counted(g, alone) && Lost(lost, g[0]) + 1 >= OOM_ROUNDS
  }

  ghost predicate KeptTo(pending: seq<Group>, alone: set<Id>, lost: map<Id, nat>, kept: seq<Group>) {
    forall g :: g in kept <==> g in pending && !GivenOver(g, alone, lost)
  }

  ghost predicate LostTo(pending: seq<Group>, alone: set<Id>, lost: map<Id, nat>, after: map<Id, nat>) {
    forall id :: Lost(after, id) == Lost(lost, id) + if [id] in pending && id in alone then 1 else 0
  }

  ghost predicate CellsTo(pending: seq<Group>, alone: set<Id>, lost: map<Id, nat>, cells: Cells, after: Cells) {
    && (forall id :: id in after <==> id in cells || ([id] in pending && GivenOver([id], alone, lost)))
    && (forall id :: id in after ==> after[id] == if id in cells then cells[id] else Cell(OutOfMemory, Ok))
  }

  /** What bounding `pending` gives, id by id. */
  ghost predicate BoundedTo(pending: seq<Group>, alone: set<Id>, lost: map<Id, nat>, cells: Cells, b: Bounded) {
    && KeptTo(pending, alone, lost, b.kept) && LostTo(pending, alone, lost, b.lost)
    && CellsTo(pending, alone, lost, cells, b.cells)
  }

  lemma OneBoundMore(front: seq<Group>, last: Group, alone: set<Id>, lost: map<Id, nat>, cells: Cells, b: Bounded)
    requires BoundedTo(front, alone, lost, cells, b)
    requires |last| == 1 ==> last !in front && last[0] !in cells
    ensures BoundedTo(front + [last], alone, lost, cells, BoundOne(b, last, alone))
  {
    assert |last| == 1 ==> last == [last[0]];
    hide KeptTo, LostTo, CellsTo;
    if Counted(last, alone) { LostSoFar(front, last, alone, lost, b); }
    OneKeptMore(front, last, alone, lost, b.kept);
    OneLostMore(front, last, alone, lost, b.lost);
    OneCellMore(front, last, alone, lost, cells, b.cells);
  }

  lemma LostSoFar(front: seq<Group>, last: Group, alone: set<Id>, lost: map<Id, nat>, b: Bounded)
    requires LostTo(front, alone, lost, b.lost) && |last| == 1 && last !in front
    ensures Lost(b.lost, last[0]) == Lost(lost, last[0])
  {
    assert last == [last[0]];
  }

  lemma OneKeptMore(front: seq<Group>, last: Group, alone: set<Id>, lost: map<Id, nat>, kept: seq<Group>)
    requires KeptTo(front, alone, lost, kept)
    ensures !GivenOver(last, alone, lost) ==> KeptTo(front + [last], alone, lost, kept + [last])
    ensures GivenOver(last, alone, lost) ==> KeptTo(front + [last], alone, lost, kept)
  {
    hide GivenOver;
  }

  lemma OneLostMore(front: seq<Group>, last: Group, alone: set<Id>, lost: map<Id, nat>, after: map<Id, nat>)
    requires LostTo(front, alone, lost, after) && (|last| == 1 ==> last !in front)
    ensures !Counted(last, alone) ==> LostTo(front + [last], alone, lost, after)
    ensures Counted(last, alone) ==> LostTo(front + [last], alone, lost, after[last[0] := Lost(after, last[0]) + 1])
  {
    assert |last| == 1 ==> last == [last[0]];
    forall id
      ensures [id] in front + [last] <==> [id] in front || (|last| == 1 && id == last[0])
    {
      assert [id] in front + [last] <==> [id] in front || [id] == last;
      if [id] == last { assert last[0] == id; }
    }
    if Counted(last, alone) {
      var counted := after[last[0] := Lost(after, last[0]) + 1];
      forall id
        ensures Lost(counted, id) == Lost(lost, id) + if [id] in front + [last] && id in alone then 1 else 0
      {
        assert Lost(after, id) == Lost(lost, id) + if [id] in front && id in alone then 1 else 0;
      }
    }
  }

  lemma OneCellMore(front: seq<Group>, last: Group, alone: set<Id>, lost: map<Id, nat>, cells: Cells, after: Cells)
    requires CellsTo(front, alone, lost, cells, after) && (|last| == 1 ==> last[0] !in cells)
    ensures !GivenOver(last, alone, lost) ==> CellsTo(front + [last], alone, lost, cells, after)
    ensures GivenOver(last, alone, lost) ==>
              CellsTo(front + [last], alone, lost, cells, after[last[0] := Cell(OutOfMemory, Ok)])
  {
    assert |last| == 1 ==> last == [last[0]];
    assert GivenOver(last, alone, lost) ==> |last| == 1;
    hide GivenOver;
    forall id
      ensures [id] in front + [last] <==> [id] in front || [id] == last
    {
    }
  }

  lemma FrontApart(groups: seq<Group>, cells: Cells)
    requires groups != [] && Apart(groups, cells)
    ensures Apart(groups[..|groups| - 1], cells)
  {
    assert forall i :: 0 <= i < |groups| - 1 ==> groups[..|groups| - 1][i] == groups[i];
  }

  lemma LastApart(groups: seq<Group>, cells: Cells)
    requires groups != [] && Apart(groups, cells)
    ensures var front, last := groups[..|groups| - 1], groups[|groups| - 1];
            |last| == 1 ==> last !in front && last[0] !in cells
  {
    var front, last := groups[..|groups| - 1], groups[|groups| - 1];
    if |last| == 1 {
      assert last[0] in last;
      forall i | 0 <= i < |front|
        ensures front[i] != last
      {
        assert groups[i] == front[i];
      }
    }
  }

  /** Settling gives every id of the groups the closing cell, and touches no other. */
  lemma {:induction false} ClosingFate(cells: Cells, groups: seq<Group>, status: Status)
    ensures var all := CellAll(cells, groups, status);
            && (forall id :: id in all <==> id in cells || id in IdsIn(groups))
            && (forall id :: id in all ==> all[id] == if id in IdsIn(groups) then Cell(status, Ok) else cells[id])
  {
    if groups != [] {
      var front, last := groups[..|groups| - 1], groups[|groups| - 1];
      ClosingFate(cells, front, status);
      assert IdsIn(groups) == IdsIn(front) + multiset(last) && forall id :: id in multiset(last) <==> id in last;
      assert CellAll(cells, groups, status) == CellAll(cells, front, status) + Stamp(last, status);
      hide IdsIn, CellAll;
    }
  }

  /** Whether the round is submitted again: ids are left, and the run is within its retries or ran out of memory under
      a ceiling. */
  predicate Again(report: Report, s: State, left: seq<Group>)
    requires s.phase.InFlight? && Reported(s.phase.items, report)
  {
    && (exists g :: g in left && !GivenUp(report, s, g))
    && (s.rounds <= 2 || (OutOfMemoryRound(report) && s.phase.ceiling))
  }

  /** The cell an id left by the fold gets, if any. */
  function Closing(report: Report, s: State, left: seq<Group>, submission: Submission, g: Group): Option<Status>
    requires s.phase.InFlight? && Reported(s.phase.items, report)
  {
    if GivenUp(report, s, g) then Some(OutOfMemory)
    else if !Again(report, s, left) then Some(Infra)
    else if submission.Unplaceable? then Some(Unavailable)
    else None
  }

  /** The phase after a gather. */
  ghost predicate PhaseAfter(report: Report, s: State, left: seq<Group>, submission: Submission, now: real,
                             after: State)
    requires s.phase.InFlight? && Reported(s.phase.items, report)
  {
    if !Again(report, s, left) then after.phase.Recorded? && after.rounds == s.rounds
    else
      match submission
      case Placed(items, ceiling) => after.phase == InFlight(items, ceiling) && after.rounds == s.rounds + 1
      case Unplaceable => after.phase.Recorded? && after.rounds == s.rounds
      case Full =>
        && after.phase.Waiting? && after.phase.since == now && after.rounds == s.rounds
        && forall g :: g in after.phase.pending <==> g in left && !GivenUp(report, s, g)
  }

  function CountedOnce(report: Report, s: State, left: seq<Group>, id: Id): nat
    requires s.phase.InFlight? && Reported(s.phase.items, report)
  {
    if OutOfMemoryRound(report) && [id] in left && RanByItself(report, s.phase.items, [id]) then 1 else 0
  }

  /** The lone ids given up. */
  function Dropped(report: Report, s: State, left: seq<Group>): set<Id>
    requires s.phase.InFlight? && Reported(s.phase.items, report)
  {
    set g | g in left && GivenUp(report, s, g) :: g[0]
  }

  predicate Lone(g: Group, dropped: set<Id>) {
    |g| == 1 && g[0] in dropped
  }

  lemma DroppedAreGivenUp(report: Report, s: State, left: seq<Group>)
    requires s.phase.InFlight? && Reported(s.phase.items, report)
    ensures forall g :: g in left ==> (GivenUp(report, s, g) <==> Lone(g, Dropped(report, s, left)))
    ensures forall id :: id in Dropped(report, s, left) ==> [id] in left
  {
    hide Reported, OutOfMemoryRound;
    forall g | g in left && Lone(g, Dropped(report, s, left))
      ensures GivenUp(report, s, g)
    {
      var f :| f in left && GivenUp(report, s, f) && f[0] == g[0];
      assert f == g;
    }
    forall id | id in Dropped(report, s, left)
      ensures [id] in left
    {
      var f :| f in left && GivenUp(report, s, f) && f[0] == id;
      assert f == [id];
    }
  }

  function Stamped(ids: set<Id>, status: Status): Cells {
    map id | id in ids :: Cell(status, Ok)
  }

  /** What the bound on lone ids keeps and cells. */
  ghost predicate BoundedSo(left: seq<Group>, cells: Cells, dropped: set<Id>, b: Bounded) {
    && (forall g :: g in b.kept <==> g in left && !Lone(g, dropped))
    && b.cells == cells + Stamped(dropped, OutOfMemory)
  }

  lemma BoundsSo(s: State, report: Report, folded: Settled)
    requires s.phase.InFlight? && Reported(s.phase.items, report) && Apart(folded.left, folded.cells)
    ensures var b := if OutOfMemoryRound(report)
                     then BoundAll(folded.left, RanAlone(s.phase.items, report), s.oomLost, folded.cells)
                     else Bounded(folded.left, s.oomLost, folded.cells);
            && BoundedSo(folded.left, folded.cells, Dropped(report, s, folded.left), b)
            && forall id :: Lost(b.lost, id) == Lost(s.oomLost, id) + CountedOnce(report, s, folded.left, id)
  {
    var left, alone := folded.left, RanAlone(s.phase.items, report);
    DroppedAreGivenUp(report, s, left);
    forall g
      ensures Counted(g, alone) <==> RanByItself(report, s.phase.items, g)
    {
      RanAloneExactly(report, s.phase.items, g);
    }
    hide Reported, RanAlone, RanByItself, OutOfMemoryRound, BoundAll, Apart, Lost, Dropped;
    if OutOfMemoryRound(report) {
      BoundFate(left, alone, s.oomLost, folded.cells);
      BoundIsSo(left, alone, s.oomLost, folded.cells, Dropped(report, s, left));
      assert forall id :: id in alone <==> Counted([id], alone);
    } else {
      assert Stamped({}, OutOfMemory) == map[];
      NoneDropped(report, s, left);
    }
  }

  lemma NoneDropped(report: Report, s: State, left: seq<Group>)
    requires s.phase.InFlight? && Reported(s.phase.items, report) && !OutOfMemoryRound(report)
    ensures Dropped(report, s, left) == {}
  {
    hide Reported, OutOfMemoryRound;
  }

  lemma BoundIsSo(left: seq<Group>, alone: set<Id>, lost: map<Id, nat>, cells: Cells, dropped: set<Id>)
    requires Apart(left, cells)
    requires forall g :: g in left ==> (Lone(g, dropped) <==> Counted(g, alone) && Lost(lost, g[0]) + 1 >= OOM_ROUNDS)
    requires forall id :: id in dropped ==> [id] in left
    ensures BoundedSo(left, cells, dropped, BoundAll(left, alone, lost, cells))
  {
    hide BoundAll, Apart, Lost;
    BoundFate(left, alone, lost, cells);
    var b := BoundAll(left, alone, lost, cells);
    forall id
      ensures id in b.cells <==> id in cells + Stamped(dropped, OutOfMemory)
      ensures id in b.cells ==> b.cells[id] == (cells + Stamped(dropped, OutOfMemory))[id]
    {
      if [id] in left {
        assert Lone([id], dropped) <==> id in dropped;
        assert id !in cells by { OnlyGroup(left, cells, [id], id); }
      }
    }
  }

  lemma OnlyGroup(groups: seq<Group>, cells: Cells, g: Group, id: Id)
    requires Apart(groups, cells) && g in groups && id in g
    ensures id !in cells && forall f :: f in groups && id in f ==> f == g
  {
    var i :| 0 <= i < |groups| && groups[i] == g;
    forall f | f in groups && id in f
      ensures f == g
    {
      var j :| 0 <= j < |groups| && groups[j] == f;
      if j < i { assert id in groups[j]; }
    }
  }

  /** What closing makes of the ids left: the dropped ones are celled already, the others get the closing cell. */
  lemma ClosesSo(left: seq<Group>, cells: Cells, dropped: set<Id>, b: Bounded, status: Status)
    requires Apart(left, cells) && BoundedSo(left, cells, dropped, b) && forall id :: id in dropped ==> [id] in left
    ensures var all := CellAll(b.cells, b.kept, status);
            && (forall id :: id in cells ==> id in all && all[id] == cells[id])
            && (forall g, id :: g in left && id in g ==>
                  id in all && all[id] == Cell(if Lone(g, dropped) then OutOfMemory else status, Ok))
            && (forall id :: id in all && id !in cells ==> exists g :: g in left && id in g)
  {
    hide CellAll, IdsIn;
    KeptIds(left, cells, dropped, b);
    hide Apart, BoundedSo;
    ClosingFate(b.cells, b.kept, status);
    forall id | id in CellAll(b.cells, b.kept, status) && id !in cells
      ensures exists g :: g in left && id in g
    {
    }
  }

  /** Which ids the bound leaves to close or to submit again. */
  lemma KeptIds(left: seq<Group>, cells: Cells, dropped: set<Id>, b: Bounded)
    requires Apart(left, cells) && BoundedSo(left, cells, dropped, b) && forall id :: id in dropped ==> [id] in left
    ensures forall id :: id in IdsIn(b.kept) || (id in b.cells && id !in cells) ==> exists g :: g in left && id in g
    ensures forall id :: id in cells ==> id !in IdsIn(b.kept) && id in b.cells && b.cells[id] == cells[id]
    ensures forall g, id :: g in left && id in g ==>
              && (id in IdsIn(b.kept) <==> !Lone(g, dropped)) && (id in b.cells <==> Lone(g, dropped))
              && (id in b.cells ==> b.cells[id] == Cell(OutOfMemory, Ok))
  {
    hide IdsIn, Apart;
    IdsInGroups(b.kept);
    forall g, id | g in left && id in g
      ensures id !in cells && (id in dropped <==> Lone(g, dropped)) && (id in IdsIn(b.kept) <==> !Lone(g, dropped))
    {
      OnlyGroup(left, cells, g, id);
      if id in dropped { assert [id] in left && id in [id]; }
    }
    forall id | id in dropped
      ensures exists g :: g in left && id in g
    {
      assert [id] in left && id in [id];
    }
  }

  /** What a gather does with the groups and cells that the fold leaves. */
  ghost predicate GathersSo(s: State, report: Report, submission: Submission, now: real, folded: Settled, after: State)
    requires s.phase.InFlight? && Reported(s.phase.items, report)
  {
    && PhaseAfter(report, s, folded.left, submission, now, after)
    && CellsSo(s, report, submission, folded, after.cells)
    && forall id :: Lost(after.oomLost, id) == Lost(s.oomLost, id) + CountedOnce(report, s, folded.left, id)
  }

  /** The cells after a gather: what the fold gave, and the closing cells of what it left. */
  ghost predicate CellsSo(s: State, report: Report, submission: Submission, folded: Settled, cells: Cells)
    requires s.phase.InFlight? && Reported(s.phase.items, report)
  {
    && (forall id :: id in folded.cells ==> id in cells && cells[id] == folded.cells[id])
    && (forall g, id :: g in folded.left && id in g ==>
          match Closing(report, s, folded.left, submission, g)
          case Some(status) => id in cells && cells[id] == Cell(status, Ok)
          case None => id !in cells)
    && (forall id :: id in cells && id !in folded.cells ==> exists g :: g in folded.left && id in g)
  }

  /** What the fold leaves is apart from what it cells. */
  lemma LeftIsApart(s: State, report: Report, whole: multiset<Id>)
    requires s.phase.InFlight? && Reported(s.phase.items, report) && Covers(s, whole) && Once(whole)
    requires FoldTo(report, s.phase.items, s.cells, |s.phase.items|).Some?
    ensures var folded := FoldTo(report, s.phase.items, s.cells, |s.phase.items|).value;
            Apart(folded.left, folded.cells) && Apart(s.phase.items, s.cells)
  {
    hide FoldTo, Reported, IdsIn, Celled, Once, Apart;
    FoldConserves(report, s.phase.items, s.cells);
    var folded := FoldTo(report, s.phase.items, s.cells, |s.phase.items|).value;
    assert IdsIn(folded.left) + Celled(folded.cells) == whole;
    OnceIsApart(folded.left, folded.cells);
    OnceIsApart(s.phase.items, s.cells);
  }

  /**
   WHAT A GATHER DOES WITH WHAT IS LEFT, group by group: a lone id killed for memory too often is OUT_OF_MEMORY; the
   rest is submitted again while the run is within its retries, or ran out of memory under a ceiling, and waits where
   there is no room; only where neither holds is it INFRA, and UNAVAILABLE only where no grant can take it. Nothing else
   changes.
   */
  lemma WhatAGatherDoes(s: State, report: Report, submission: Submission, now: real, whole: multiset<Id>)
    requires s.phase.InFlight? && Reported(s.phase.items, report) && Covers(s, whole) && Once(whole)
    requires Gathered(s, report, submission, now).Some?
    ensures FoldTo(report, s.phase.items, s.cells, |s.phase.items|).Some?
    ensures GathersSo(s, report, submission, now, FoldTo(report, s.phase.items, s.cells, |s.phase.items|).value,
                      Gathered(s, report, submission, now).value)
  {
    var items := s.phase.items;
    var folded := FoldTo(report, items, s.cells, |items|).value;
    assert Judged(report, AnyKilled(report)) <==> OutOfMemoryRound(report);
    LeftIsApart(s, report, whole);
    BoundsSo(s, report, folded);
    var alone := RanAlone(items, report);
    hide FoldTo, Reported, RanAlone, Judged, OutOfMemoryRound, BoundAll, AnyKilled, CellAll, BoundedSo, GathersSo,
         Covers, Once, Apart, CountedOnce, Dropped, Lost;
    GathersAgain(s, report, submission, now, folded,
                 if OutOfMemoryRound(report) then BoundAll(folded.left, alone, s.oomLost, folded.cells)
                 else Bounded(folded.left, s.oomLost, folded.cells));
  }

  lemma GathersAgain(s: State, report: Report, submission: Submission, now: real, folded: Settled, b: Bounded)
    requires s.phase.InFlight? && Reported(s.phase.items, report) && Apart(folded.left, folded.cells)
    requires BoundedSo(folded.left, folded.cells, Dropped(report, s, folded.left), b)
    requires forall id :: Lost(b.lost, id) == Lost(s.oomLost, id) + CountedOnce(report, s, folded.left, id)
    ensures var after := s.(cells := b.cells, oomLost := b.lost);
            GathersSo(s, report, submission, now, folded,
                      if b.kept != [] && (s.rounds <= RETRIES || (OutOfMemoryRound(report) && s.phase.ceiling))
                      then Resubmit(after, b.kept, submission, now) else Settle(after, b.kept, Infra))
  {
    var left, dropped := folded.left, Dropped(report, s, folded.left);
    var after := s.(cells := b.cells, oomLost := b.lost);
    DroppedAreGivenUp(report, s, left);
    NoneKept(left, folded.cells, dropped, b);
    hide Reported, OutOfMemoryRound, CellAll, IdsIn, GivenUp, CountedOnce, Dropped, Lost, Apart, BoundedSo, Lone,
         CellsSo, PhaseAfter, Again;
    assert Again(report, s, left) <==>
           b.kept != [] && (s.rounds <= RETRIES || (OutOfMemoryRound(report) && s.phase.ceiling))
    by { AgainIs(report, s, left, dropped, b); }
    if !Again(report, s, left) {
      ClosedSo(s, report, submission, folded, dropped, b, Infra);
      PhaseSo(s, report, submission, now, left, Settle(after, b.kept, Infra), b.kept);
    } else if submission.Unplaceable? {
      ClosedSo(s, report, submission, folded, dropped, b, Unavailable);
      PhaseSo(s, report, submission, now, left, Settle(after, b.kept, Unavailable), b.kept);
    } else {
      OpenSo(s, report, submission, folded, dropped, b);
      PhaseSo(s, report, submission, now, left, Resubmit(after, b.kept, submission, now), b.kept);
    }
  }

  lemma NoneKept(left: seq<Group>, cells: Cells, dropped: set<Id>, b: Bounded)
    requires BoundedSo(left, cells, dropped, b)
    ensures b.kept != [] <==> exists g :: g in left && !Lone(g, dropped)
    ensures forall g :: g in b.kept <==> g in left && !Lone(g, dropped)
  {
    if b.kept != [] { assert b.kept[0] in b.kept; }
  }

  lemma AgainIs(report: Report, s: State, left: seq<Group>, dropped: set<Id>, b: Bounded)
    requires s.phase.InFlight? && Reported(s.phase.items, report)
    requires b.kept != [] <==> exists g :: g in left && !Lone(g, dropped)
    requires forall g :: g in left ==> (GivenUp(report, s, g) <==> Lone(g, dropped))
    ensures Again(report, s, left) <==>
            b.kept != [] && (s.rounds <= RETRIES || (OutOfMemoryRound(report) && s.phase.ceiling))
  {
    hide Reported, OutOfMemoryRound, GivenUp, Lone;
  }

  lemma PhaseSo(s: State, report: Report, submission: Submission, now: real, left: seq<Group>, after: State,
                kept: seq<Group>)
    requires s.phase.InFlight? && Reported(s.phase.items, report) && after.rounds >= s.rounds
    requires forall g :: g in kept <==> g in left && !GivenUp(report, s, g)
    requires if !Again(report, s, left) || submission.Unplaceable?
             then after.phase.Recorded? && after.rounds == s.rounds
             else if submission.Full? then after.phase == Waiting(kept, now) && after.rounds == s.rounds
             else after.phase == InFlight(submission.items, submission.ceiling) && after.rounds == s.rounds + 1
    ensures PhaseAfter(report, s, left, submission, now, after)
  {
    hide Reported, GivenUp, Again;
  }

  lemma ClosedSo(s: State, report: Report, submission: Submission, folded: Settled, dropped: set<Id>, b: Bounded,
                 status: Status)
    requires s.phase.InFlight? && Reported(s.phase.items, report) && Apart(folded.left, folded.cells)
    requires BoundedSo(folded.left, folded.cells, dropped, b) && forall id :: id in dropped ==> [id] in folded.left
    requires forall g :: g in folded.left ==> (GivenUp(report, s, g) <==> Lone(g, dropped))
    requires if !Again(report, s, folded.left) then status == Infra
             else submission.Unplaceable? && status == Unavailable
    ensures CellsSo(s, report, submission, folded, CellAll(b.cells, b.kept, status))
  {
    hide Reported, GivenUp, Again, CellAll, Apart, BoundedSo, Lone;
    ClosesSo(folded.left, folded.cells, dropped, b, status);
  }

  lemma OpenSo(s: State, report: Report, submission: Submission, folded: Settled, dropped: set<Id>, b: Bounded)
    requires s.phase.InFlight? && Reported(s.phase.items, report) && Apart(folded.left, folded.cells)
    requires BoundedSo(folded.left, folded.cells, dropped, b) && forall id :: id in dropped ==> [id] in folded.left
    requires forall g :: g in folded.left ==> (GivenUp(report, s, g) <==> Lone(g, dropped))
    requires Again(report, s, folded.left) && !submission.Unplaceable?
    ensures CellsSo(s, report, submission, folded, b.cells)
  {
    hide Reported, GivenUp, Again, Apart, BoundedSo, Lone;
    KeptIds(folded.left, folded.cells, dropped, b);
  }

  // ----- a waiting round

  /** The closing cell of a waiting round tried again, if it closes. */
  function Unrun(s: State, submission: Submission, now: real, stallMinutes: real): Option<Status>
    requires s.phase.Waiting?
  {
    match submission
    case Placed(_, _) => None
    case Full => if (now - s.phase.since) / 60.0 >= stallMinutes then Some(Infra) else None
    case Unplaceable => Some(Unavailable)
  }

  /**
   WHAT A WAIT COMES TO: it is submitted as soon as there is room, one more round; with none it stays as it is exactly
   until the stall bound, and is then closed, as it is at once where no grant can take it.
   */
  lemma WhatAWaitComesTo(s: State, submission: Submission, now: real, stallMinutes: real)
    requires s.phase.Waiting?
    ensures var after, closing := Retried(s, submission, now, stallMinutes), Unrun(s, submission, now, stallMinutes);
            && after.oomLost == s.oomLost
            && (submission.Placed? ==> after == s.(rounds := s.rounds + 1,
                                                   phase := InFlight(submission.items, submission.ceiling)))
            && (submission.Full? && closing.None? ==> after == s)
            && (closing.Some? ==>
                  && after.phase.Recorded? && after.rounds == s.rounds
                  && (forall id :: id in after.cells <==> id in s.cells || id in IdsIn(s.phase.pending))
                  && (forall id :: id in after.cells ==>
                        after.cells[id] == if id in IdsIn(s.phase.pending) then Cell(closing.value, Ok)
                                           else s.cells[id]))
  {
    hide CellAll, IdsIn;
    ClosingFate(s.cells, s.phase.pending, Infra);
    ClosingFate(s.cells, s.phase.pending, Unavailable);
  }

  // ----- what was reported stands

  /** A fold keeps every report of the round, and every cell the run had. */
  lemma FoldKeepsReports(s: State, report: Report, whole: multiset<Id>, i: nat, id: Id)
    requires s.phase.InFlight? && Reported(s.phase.items, report) && Covers(s, whole) && Once(whole)
    requires FoldTo(report, s.phase.items, s.cells, |s.phase.items|).Some?
    requires i < |s.phase.items| && id in report.folds[i].cells
    ensures var folded := FoldTo(report, s.phase.items, s.cells, |s.phase.items|).value;
            id in folded.cells && folded.cells[id] == report.folds[i].cells[id]
  {
    hide FoldItem, FoldTo, Covers, Once, Apart, Tiles, FoldedSo;
    var items := s.phase.items;
    LeftIsApart(s, report, whole);
    FoldsItemByItem(report, items, s.cells, |items|);
    ItemFolds(report, items, s.cells, |items|, i);
    ItemKeepsReport(report, items, i, id);
    FoldedItem(report, items, s.cells, FoldTo(report, items, s.cells, |items|).value, i, id);
  }

  lemma ItemKeepsReport(report: Report, items: seq<Group>, i: nat, id: Id)
    requires Reported(items, report) && i < |items| && id in report.folds[i].cells
    requires FoldItem(report, i, items[i], report.folds[i]).Some?
    ensures id in items[i]
    ensures var one := Ended(report, items, i); id in one.cells && one.cells[id] == report.folds[i].cells[id]
  {
    hide FoldItem, Tiles, Unfinished, ExitFate, FirstFate, HalvedFate;
    assert id in report.folds[i].cells.Keys;
    var n := ShardHolds(report.shards, |items|, i);
    WhatEndsAnItem(report, items, i, n);
  }

  lemma FoldedItem(report: Report, items: seq<Group>, cells: Cells, all: Settled, i: nat, id: Id)
    requires |items| == |report.folds| && FoldedSo(report, items, cells, |items|, all)
    requires i < |items| && id in items[i] && id in Ended(report, items, i).cells
    ensures id in all.cells && all.cells[id] == Ended(report, items, i).cells[id]
  {
    hide Ended;
  }

  lemma {:induction false} ItemFolds(report: Report, items: seq<Group>, cells: Cells, k: nat, i: nat)
    requires Reported(items, report) && i < k <= |items| && FoldTo(report, items, cells, k).Some?
    ensures FoldItem(report, i, items[i], report.folds[i]).Some?
  {
    hide FoldItem, FoldTo, Reported;
    FoldUnfolds(report, items, cells, k);
    if i < k - 1 {
      ItemFolds(report, items, cells, k - 1, i);
    }
  }

  /** A call never changes a cell the run has. */
  lemma CallKeepsCells(s: State, call: Call, whole: multiset<Id>, stallMinutes: real, id: Id)
    requires Covers(s, whole) && Once(whole) && Planned(s, call) && id in s.cells
    ensures var after := After(s, call, stallMinutes); id in after.cells && after.cells[id] == s.cells[id]
  {
    hide FoldTo, Reported, CellAll, Retried, Gathered, Rearranges, GathersSo, Apart, Tiles;
    match call
    case Folds(report, submission, now) =>
      if Gathered(s, report, submission, now).Some? {
        WhatAGatherDoes(s, report, submission, now, whole);
        LeftIsApart(s, report, whole);
        FoldsItemByItem(report, s.phase.items, s.cells, |s.phase.items|);
        GathersKeeps(s, report, submission, now, FoldTo(report, s.phase.items, s.cells, |s.phase.items|).value,
                     Gathered(s, report, submission, now).value, id);
      }
    case Retries(submission, now) =>
      WhatAWaitComesTo(s, submission, now, stallMinutes);
      CelledIsNotOwed(s, whole, id);
  }

  lemma GathersKeeps(s: State, report: Report, submission: Submission, now: real, folded: Settled, after: State, id: Id)
    requires s.phase.InFlight? && Reported(s.phase.items, report)
    requires GathersSo(s, report, submission, now, folded, after) && id in folded.cells
    ensures id in after.cells && after.cells[id] == folded.cells[id]
  {
    hide Reported, PhaseAfter, Closing, CountedOnce;
  }

  lemma CelledIsNotOwed(s: State, whole: multiset<Id>, id: Id)
    requires Covers(s, whole) && Once(whole) && id in s.cells
    ensures id !in IdsIn(Owed(s))
  {
    hide IdsIn;
    assert id in Celled(s.cells);
    PartOfOnce(Celled(s.cells), IdsIn(Owed(s)), whole);
  }

  lemma {:induction false} RunKeepsCells(s: State, calls: seq<Call>, whole: multiset<Id>, stallMinutes: real, id: Id)
    requires Covers(s, whole) && Once(whole) && AllPlanned(s, calls, stallMinutes) && id in s.cells
    ensures var end := Run(s, calls, stallMinutes); id in end.cells && end.cells[id] == s.cells[id]
    decreases |calls|
  {
    if calls != [] {
      hide After, Covers, Once, Planned;
      CallKeepsCells(s, calls[0], whole, stallMinutes, id);
      CallCovers(s, calls[0], whole, stallMinutes);
      RunKeepsCells(After(s, calls[0], stallMinutes), calls[1..], whole, stallMinutes, id);
    }
  }

  /**
   WHAT A TEST REPORTED STANDS: a report of the round in flight that a gather folds is that test's cell at the end of
   every run from there, whatever the cluster does afterwards.
   */
  lemma ReportStands(s: State, calls: seq<Call>, whole: multiset<Id>, stallMinutes: real, i: nat, id: Id)
    requires Covers(s, whole) && Once(whole) && calls != [] && AllPlanned(s, calls, stallMinutes)
    requires calls[0].Folds? && Gathered(s, calls[0].report, calls[0].submission, calls[0].now).Some?
    requires i < |s.phase.items| && id in calls[0].report.folds[i].cells
    ensures var end := Run(s, calls, stallMinutes);
            id in end.cells && end.cells[id] == calls[0].report.folds[i].cells[id]
  {
    hide FoldTo, Reported, Gathered, Covers, Once, GathersSo, Rearranges;
    var call := calls[0];
    WhatAGatherDoes(s, call.report, call.submission, call.now, whole);
    FoldKeepsReports(s, call.report, whole, i, id);
    GathersKeeps(s, call.report, call.submission, call.now,
                 FoldTo(call.report, s.phase.items, s.cells, |s.phase.items|).value,
                 Gathered(s, call.report, call.submission, call.now).value, id);
    CallCovers(s, call, whole, stallMinutes);
    RunKeepsCells(After(s, call, stallMinutes), calls[1..], whole, stallMinutes, id);
  }

  // ----- what an item teaches

  /** What the closed items from `a` up to `b` took of their shard's wall. */
  function WallOfRange(report: Report, a: nat, b: nat): real
    requires a <= b <= |report.folds|
    decreases b - a
  {
    if a == b then 0.0 else WallOf(report.folds[a]) + WallOfRange(report, a + 1, b)
  }

  predicate AllClosed(report: Report, a: nat, b: nat)
    requires a <= b <= |report.folds|
  {
    forall j :: a <= j < b ==> report.folds[j].done.Some?
  }

  /** How long item `i` of the shard from `start` ran before it was killed, if it was. */
  function RanFor(report: Report, start: nat, wall: real, i: nat): Option<real>
    requires start <= i < |report.folds|
  {
    if !AllClosed(report, start, i) then None
    else
      match report.folds[i].done
      case None => Some(Max(0.0, wall - WallOfRange(report, start, i)))
      case Some(done) => if done.code < 0 then Some(done.wall) else None
  }

  lemma {:induction false} SpentInShard(report: Report, item: nat, upto: nat, left: real, i: nat)
    requires item <= i < upto <= |report.folds|
    ensures var spent := SpentBy(report, item, upto, left);
            match RanFor(report, item, left, i)
            case None => i !in spent
            case Some(ran) => i in spent && spent[i] == ran
    decreases upto - item
  {
    SpentIsInRange(report, item, upto, left);
    if item < i && report.folds[item].done.Some? {
      var rest := left - report.folds[item].done.value.wall;
      SpentInShard(report, item + 1, upto, rest, i);
      assert AllClosed(report, item, i) <==> AllClosed(report, item + 1, i);
      assert WallOfRange(report, item, i) == WallOf(report.folds[item]) + WallOfRange(report, item + 1, i);
      assert i != item;
    } else if item == i && report.folds[i].done.Some? {
      SpentIsInRange(report, i + 1, upto, left - report.folds[i].done.value.wall);
    }
  }

  lemma {:induction false} SpentIsInRange(report: Report, item: nat, upto: nat, left: real)
    requires item <= upto <= |report.folds|
    ensures forall j :: j in SpentBy(report, item, upto, left) ==> item <= j < upto
    decreases upto - item
  {
    if item < upto && report.folds[item].done.Some? {
      SpentIsInRange(report, item + 1, upto, left - report.folds[item].done.value.wall);
    }
  }

  /** Every item's time is its own shard's. */
  lemma {:induction false} SpentOfItem(report: Report, items: seq<Group>, shards: nat, i: nat, n: nat)
    requires Reported(items, report) && n < shards <= |report.shards| && i < |items|
    requires report.shards[n].0 <= i < report.shards[n].1
    ensures var spent := SpentIn(report, shards);
            match RanFor(report, report.shards[n].0, report.walls[n], i)
            case None => i !in spent
            case Some(ran) => i in spent && spent[i] == ran
  {
    var last := shards - 1;
    var (start, stop) := report.shards[last];
    if n == last {
      SpentInShard(report, start, stop, report.walls[last], i);
      assert SpentIn(report, shards) == SpentIn(report, last) + SpentBy(report, start, stop, report.walls[last]);
      hide SpentBy, RanFor;
      if i in SpentIn(report, last) {
        var m := SpentKey(report, items, last, i);
        ShardsAscend(report.shards, |items|, m, last);
      }
    } else {
      SpentIsInRange(report, start, stop, report.walls[last]);
      ShardsAscend(report.shards, |items|, n, last);
      hide SpentBy;
      SpentOfItem(report, items, last, i, n);
    }
  }

  lemma {:induction false} SpentKey(report: Report, items: seq<Group>, shards: nat, i: nat) returns (m: nat)
    requires Reported(items, report) && shards <= |report.shards| && i in SpentIn(report, shards)
    ensures m < shards && report.shards[m].0 <= i < report.shards[m].1
  {
    m := shards - 1;
    var (start, stop) := report.shards[m];
    SpentIsInRange(report, start, stop, report.walls[m]);
    hide SpentBy;
    if i !in SpentBy(report, start, stop, report.walls[m]) {
      m := SpentKey(report, items, m, i);
    }
  }

  /**
   WHAT AN ITEM TEACHES, as an item of shard `n`: always its stream, with the limit it died at exactly when its shard
   ran out of memory; and, exactly when it did not exit, how long it ran: its own wall when a signal closed it, what its
   shard's wall had left when it never closed, and nothing after another that never did.
   */
  lemma WhatAnItemTeaches(report: Report, items: seq<Group>, i: nat, n: nat)
    requires Reported(items, report) && i < |items| && n < |report.shards|
    requires report.shards[n].0 <= i < report.shards[n].1
    ensures var folded := report.folds[i];
            var ran := RanFor(report, report.shards[n].0, report.walls[n], i);
            var limit := if report.states[n].RanOutOfMemory? then Some(report.allowedMb[n]) else None;
            var top := if n in report.tops then Some(report.tops[n]) else None;
            LessonsOf(report, items[i], SpentIn(report, |report.shards|), i) ==
            [Learns(items[i], folded, limit)] +
            if Exits(folded) then []
            else [Dies(items[i], folded, if ran.Some? then ran.value else 0.0, report.states[n].TimedOut?, top)]
  {
    hide SpentIn, Tiles;
    OnlyShard(report.shards, |items|, n, i);
    SpentOfItem(report, items, |report.shards|, i, n);
  }

  /** EVERY ITEM TEACHES, ONE AFTER ANOTHER: a round's lessons are its items' in their order, none left out. */
  lemma {:induction false} EveryItemTeaches(report: Report, items: seq<Group>, spent: map<nat, real>, i: nat, k: nat)
    requires i < k <= |items| == |report.folds|
    ensures Lessons(report, items, spent, 0) == []
    ensures Lessons(report, items, spent, i + 1) ==
            Lessons(report, items, spent, i) + LessonsOf(report, items[i], spent, i)
    ensures Lessons(report, items, spent, i + 1) <= Lessons(report, items, spent, k)
  {
    hide LessonsOf;
    if i + 1 < k {
      EveryItemTeaches(report, items, spent, i, k - 1);
    }
  }

  /** The lessons after item `i` that finish a test are of later items. */
  lemma {:induction false} LaterLessons(report: Report, items: seq<Group>, spent: map<nat, real>, i: nat, k: nat,
                                        node: Id)
    requires i < k <= |items| == |report.folds|
    requires forall j :: i < j < |items| ==> node !in report.folds[j].seconds
    ensures Lessons(report, items, spent, i + 1) <= Lessons(report, items, spent, k)
    ensures StillUnfinished(Lessons(report, items, spent, k)[|Lessons(report, items, spent, i + 1)|..], node)
  {
    hide Lessons;
    EveryItemTeaches(report, items, spent, i, k);
    var first, all := Lessons(report, items, spent, i + 1), Lessons(report, items, spent, k);
    if i + 1 < k {
      LaterLessons(report, items, spent, i, k - 1, node);
      EveryItemTeaches(report, items, spent, k - 1, k);
      var before := Lessons(report, items, spent, k - 1);
      assert all == before + LessonsOf(report, items[k - 1], spent, k - 1);
      assert all[|first|..] == before[|first|..] + LessonsOf(report, items[k - 1], spent, k - 1);
    }
  }

  /**
   A ROUND REMEMBERS ITS KILLS: the test that a signal cut in a shard that ran out of memory has a floor of twice what
   its limit allowed once the whole round is folded, unless a later item of the round finished it.
   */
  lemma ARoundRemembersItsKills(report: Report, items: seq<Group>, facts: Facts, i: nat, n: nat, node: Id)
    requires Reported(items, report) && i < |items| && n < |report.shards|
    requires report.shards[n].0 <= i < report.shards[n].1 && report.states[n].RanOutOfMemory?
    requires Signalled(report.folds[i]) && report.allowedMb[n] > 0.0
    requires FirstUnfinished(items[i], report.folds[i].cells.Keys) == Some(node)
    requires forall j :: i < j < |items| ==> node !in report.folds[j].seconds
    ensures var lessons := Lessons(report, items, SpentIn(report, |report.shards|), |items|);
            Get(TaughtAll(facts, lessons).idPeaks, node) >= 2.0 * report.allowedMb[n]
  {
    hide Learn, Measured.Killed, SpentIn, Lessons, FirstUnfinished, Tiles;
    var spent := SpentIn(report, |report.shards|);
    var before, folded := Lessons(report, items, spent, i), report.folds[i];
    var all := Lessons(report, items, spent, |items|);
    var learns := Learns(items[i], folded, Some(report.allowedMb[n]));
    WhatAnItemTeaches(report, items, i, n);
    EveryItemTeaches(report, items, spent, i, |items|);
    LaterLessons(report, items, spent, i, |items|, node);
    var own, first := LessonsOf(report, items[i], spent, i), Lessons(report, items, spent, i + 1);
    assert own[0] == learns && |own| == 2 && own[1].Dies?;
    var rest := [own[1]] + all[|first|..];
    assert all == (before + [learns]) + rest;
    TaughtInTurn(facts, before + [learns], rest);
    TaughtInTurn(facts, before, [learns]);
    TaughtOnce(TaughtAll(facts, before), learns);
    KillIsTaught(TaughtAll(facts, before), items[i], folded, report.allowedMb[n], node);
    FloorOutlives(TaughtAll(facts, before + [learns]), rest, node);
  }

  lemma TaughtOnce(facts: Facts, lesson: Lesson)
    ensures TaughtAll(facts, [lesson]) == Taught(facts, lesson)
  {
    hide Taught;
    assert [lesson][..0] == [];
  }
}
