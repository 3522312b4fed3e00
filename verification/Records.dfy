/**
 One round of a cluster run folded: each item's stream becomes cells for the ids that finished and groups still to
 run for those that did not, halved when a kill cut them.
 */
module Records {
  import opened Options
  import opened PytestItem
  import opened Measured
  import Sums

  type Group = seq<Id>
  type Cells = map<Id, Plain>

  /** A timed-out shard may report up to this many seconds less than its limit. */
  const KILL_SLACK := 60.0

  datatype ShardState = Completed | TimedOut | RanOutOfMemory | EndedOtherwise

  /**
   What the cluster shows of a finished round: each item's folded stream, the shards as item ranges, their walls and
   states, the memory each shard's limit allowed (MB), the shards planned at the most memory any grant gives, and the
   longest wall any partition granted a shard when it was planned (seconds).
   */
  datatype Report = Report(folds: seq<Folded>, shards: seq<(nat, nat)>, walls: seq<real>, states: seq<ShardState>,
                           allowedMb: seq<real>, atCeiling: set<nat>, tops: map<nat, real>)

  /** The shards tile the items: every item lies in exactly the ranges' order. */
  predicate Tiles(shards: seq<(nat, nat)>, items: nat) {
    && (forall n :: 0 <= n < |shards| ==> shards[n].0 < shards[n].1 <= items)
    && (forall n :: 0 < n < |shards| ==> shards[n - 1].1 == shards[n].0)
    && (if shards == [] then items == 0 else shards[0].0 == 0 && shards[|shards| - 1].1 == items)
  }

  /** A report of `items`: one fold per item naming only its ids, one wall, state and limit per shard. */
  predicate Reported(items: seq<Group>, report: Report) {
    && |report.folds| == |items|
    && |report.walls| == |report.shards| == |report.states| == |report.allowedMb|
    && Tiles(report.shards, |items|)
    && forall i :: 0 <= i < |items| ==>
                     report.folds[i].cells.Keys <= (set id | id in items[i])
  }

  /** The shard an item ran in. */
  function ShardOf(shards: seq<(nat, nat)>, item: nat): (shard: Option<nat>)
    ensures shard.Some? ==> shard.value < |shards| && shards[shard.value].0 <= item < shards[shard.value].1
    ensures shard.None? ==> forall n :: 0 <= n < |shards| ==> !(shards[n].0 <= item < shards[n].1)
  {
    if shards == [] then None
    else
      var n := |shards| - 1;
      if shards[n].0 <= item < shards[n].1 then Some(n) else ShardOf(shards[..n], item)
  }

  lemma {:induction false} ShardsAscend(shards: seq<(nat, nat)>, items: nat, m: nat, n: nat)
    requires Tiles(shards, items) && m < n < |shards|
    ensures shards[m].1 <= shards[n].0
    decreases n
  {
    if m < n - 1 {
      ShardsAscend(shards, items, m, n - 1);
    }
  }

  lemma OnlyShard(shards: seq<(nat, nat)>, items: nat, n: nat, item: nat)
    requires Tiles(shards, items) && n < |shards| && shards[n].0 <= item < shards[n].1
    ensures ShardOf(shards, item) == Some(n)
  {
    hide Tiles;
    var found := ShardOf(shards, item);
    assert found.Some?;
    if found.value < n { ShardsAscend(shards, items, found.value, n); }
    if n < found.value { ShardsAscend(shards, items, n, found.value); }
  }

  // ----- one item

  /** What folding an item gives: cells it settles itself, and the groups it leaves to run. */
  datatype Settled = Settled(cells: Cells, left: seq<Group>)

  function NonEmpty(ids: Group): seq<Group> {
    if ids == [] then [] else [ids]
  }

  function Halves(rest: Group): seq<Group> {
    var half := (|rest| + 1) / 2;
    NonEmpty(rest[..half]) + NonEmpty(rest[half..])
  }

  function Stamp(ids: Group, status: Status): Cells {
    map id | id in ids :: Cell(status, Ok)
  }

  function AllBut(ids: Group, node: Id): Group {
    Unfinished(ids, {node})
  }

  /** The item exited by itself: the test it was running is ERROR, and the ids after it run again. */
  function Exited(folded: Folded, rest: Group): Settled {
    if folded.started.None? || folded.started.value !in rest then Settled(folded.cells + Stamp(rest, Pending), [])
    else
      var hit := folded.started.value;
      Settled(folded.cells[hit := Cell(Error, Ok)], NonEmpty(AllBut(rest, hit)))
  }

  /** Whether the item's shard was cut at the longest wall any partition grants. */
  predicate CutAtTop(report: Report, item: nat) {
    var shard := ShardOf(report.shards, item);
    && shard.Some?
    && shard.value < |report.states| && shard.value < |report.walls|
    && report.states[shard.value].TimedOut?
    && shard.value in report.tops
    && report.walls[shard.value] >= report.tops[shard.value] - KILL_SLACK
  }

  /** Whether the item was killed for memory in a shard at the most any grant gives. */
  predicate AtCeiling(report: Report, item: nat) {
    var shard := ShardOf(report.shards, item);
    && shard.Some?
    && shard.value < |report.states|
    && report.states[shard.value].RanOutOfMemory?
    && shard.value in report.atCeiling
  }

  predicate ClosedByItself(folded: Folded) {
    folded.done.Some? && !Signalled(folded)
  }

  /** `None` is the source's IndexError: a shard cut at the top whose unclosed item has a cell for every id. */
  function FoldItem(report: Report, item: nat, ids: Group, folded: Folded): Option<Settled> {
    var rest := Unfinished(ids, folded.cells.Keys);
    if ClosedByItself(folded) then
      Some(Exited(folded, rest))
    else if CutAtTop(report, item) then
      if rest == [] then None
      else Some(Settled(folded.cells[rest[0] := Cell(Timeout, Ok)], NonEmpty(rest[1..])))
    else if |rest| == 1 && AtCeiling(report, item) then
      Some(Settled(folded.cells[rest[0] := Cell(OutOfMemory, Ok)], []))
    else
      Some(Settled(folded.cells, Halves(rest)))
  }

  // ----- the round

  /** Every item up to the `k`-th folded: the groups left to run, and the cells on top of `cells`. */
  function FoldTo(report: Report, items: seq<Group>, cells: Cells, k: nat): Option<Settled>
    requires Reported(items, report) && k <= |items|
  {
    if k == 0 then Some(Settled(cells, []))
    else
      var before := FoldTo(report, items, cells, k - 1);
      var one := FoldItem(report, k - 1, items[k - 1], report.folds[k - 1]);
      if before.None? || one.None? then None
      else Some(Settled(before.value.cells + one.value.cells, before.value.left + one.value.left))
  }

  /** One more item folded; nothing to fold. */
  lemma FoldUnfolds(report: Report, items: seq<Group>, cells: Cells, k: nat)
    requires Reported(items, report) && k <= |items|
    ensures FoldTo(report, items, cells, k) ==
            if k == 0 then Some(Settled(cells, []))
            else
              var before := FoldTo(report, items, cells, k - 1);
              var one := FoldItem(report, k - 1, items[k - 1], report.folds[k - 1]);
              if before.None? || one.None? then None
              else Some(Settled(before.value.cells + one.value.cells, before.value.left + one.value.left))
  {
    hide FoldItem, Reported;
  }

  /** What a closed item's process used of its core. */
  function WallOf(folded: Folded): (wall: real)
    ensures folded.done.None? ==> wall == 0.0
    ensures folded.done.Some? ==> wall == folded.done.value.wall
  {
    if folded.done.Some? then folded.done.value.wall else 0.0
  }

  /** Whether a signal closed some item. */
  predicate AnyKilled(report: Report) {
    exists i :: 0 <= i < |report.folds| && Signalled(report.folds[i])
  }

  /** Seconds each unclosed or signalled item of a shard ran, as far as its shard's wall and its own tell. */
  function SpentBy(report: Report, item: nat, upto: nat, left: real): map<nat, real>
    requires item <= upto <= |report.folds|
    decreases upto - item
  {
    if item == upto then map[]
    else
      var done := report.folds[item].done;
      if done.None? then map[item := Max(0.0, left)]
      else
        var after := SpentBy(report, item + 1, upto, left - done.value.wall);
        if done.value.code < 0 then after[item := done.value.wall] else after
  }

  function SpentIn(report: Report, shards: nat): map<nat, real>
    requires shards <= |report.shards| == |report.walls|
    requires Tiles(report.shards, |report.folds|)
  {
    if shards == 0 then map[]
    else
      var (start, stop) := report.shards[shards - 1];
      SpentIn(report, shards - 1) + SpentBy(report, start, stop, report.walls[shards - 1])
  }

  /** The limit an item died at, over the safety, when its shard ran out of memory. */
  function AllowedMb(report: Report, item: nat): Option<real> {
    var shard := ShardOf(report.shards, item);
    if shard.Some? && shard.value < |report.states| && shard.value < |report.allowedMb| &&
       report.states[shard.value].RanOutOfMemory?
    then Some(report.allowedMb[shard.value]) else None
  }

  function TopOf(report: Report, item: nat): Option<real> {
    var shard := ShardOf(report.shards, item);
    if shard.Some? && shard.value in report.tops then Some(report.tops[shard.value]) else None
  }

  predicate InTimedOutShard(report: Report, item: nat) {
    var shard := ShardOf(report.shards, item);
    shard.Some? && shard.value < |report.states| && report.states[shard.value].TimedOut?
  }

  /** What item `i` teaches: its stream, then the time it ran when it did not close by itself. */
  function LessonsOf(report: Report, ids: Group, spent: map<nat, real>, i: nat): seq<Lesson>
    requires i < |report.folds|
  {
    var folded := report.folds[i];
    [Learns(ids, folded, AllowedMb(report, i))] +
    if ClosedByItself(folded) then []
    else [Dies(ids, folded, if i in spent then spent[i] else 0.0, InTimedOutShard(report, i), TopOf(report, i))]
  }

  /** What the round's first `k` items teach, in order. */
  function Lessons(report: Report, items: seq<Group>, spent: map<nat, real>, k: nat): seq<Lesson>
    requires k <= |items| == |report.folds|
  {
    if k == 0 then [] else Lessons(report, items, spent, k - 1) + LessonsOf(report, items[k - 1], spent, k - 1)
  }

  lemma {:induction false} TaughtInTurn(facts: Facts, first: seq<Lesson>, second: seq<Lesson>)
    ensures TaughtAll(facts, first + second) == TaughtAll(TaughtAll(facts, first), second)
  {
    if second == [] {
      assert first + second == first;
    } else {
      hide Taught;
      var front := second[..|second| - 1];
      assert (first + second)[..|first + second| - 1] == first + front;
      TaughtInTurn(facts, first, front);
    }
  }

  method TeachItem(report: Report, ids: Group, spent: map<nat, real>, i: nat, table: Table)
    requires i < |report.folds|
    modifies table
    ensures table.Contents() == TaughtAll(old(table.Contents()), LessonsOf(report, ids, spent, i))
  {
    hide Learn, Measured.Killed, AllowedMb, InTimedOutShard, TopOf;
    var folded := report.folds[i];
    ghost var facts, learns := old(table.Contents()), Learns(ids, folded, AllowedMb(report, i));
    table.LearnItem(ids, folded, AllowedMb(report, i));
    assert [learns][..0] == [];
    assert table.Contents() == TaughtAll(facts, [learns]);
    if !ClosedByItself(folded) {
      var ran := if i in spent then spent[i] else 0.0;
      table.PriceKilled(ids, folded, ran, InTimedOutShard(report, i), TopOf(report, i));
      assert LessonsOf(report, ids, spent, i)[..1] == [learns];
    }
  }

  /** The round folded: the groups left to run, or where indexing fails; the table taught in place. */
  method Fold(items: seq<Group>, report: Report, cells: Cells, table: Table)
    returns (settled: Option<Settled>, killed: bool, busy: real)
    requires Reported(items, report)
    modifies table
    ensures settled == FoldTo(report, items, cells, |items|)
    ensures settled.Some? ==>
              && killed == AnyKilled(report) && busy == Sums.Sum(report.folds, WallOf)
              && table.Contents() == TaughtAll(old(table.Contents()),
                                               Lessons(report, items, SpentIn(report, |report.shards|), |items|))
  {
    hide FoldItem, LessonsOf, SpentIn, TaughtAll;
    var spent := SpentIn(report, |report.shards|);
    var pending: seq<Group> := [];
    var after := cells;
    killed, busy := false, 0.0;
    assert table.Contents() == TaughtAll(old(table.Contents()), []) by { NothingTaught(table.Contents()); }
    for i := 0 to |items|
      invariant FoldTo(report, items, cells, i) == Some(Settled(after, pending))
      invariant killed <==> exists j :: 0 <= j < i && Signalled(report.folds[j])
      invariant table.Contents() == TaughtAll(old(table.Contents()), Lessons(report, items, spent, i))
    {
      var one := FoldItem(report, i, items[i], report.folds[i]);
      if one.None? {
        StaysNone(report, items, cells, i + 1);
        return None, killed, 0.0;
      }
      TeachItem(report, items[i], spent, i, table);
      TaughtInTurn(old(table.Contents()), Lessons(report, items, spent, i), LessonsOf(report, items[i], spent, i));
      killed := killed || Signalled(report.folds[i]);
      pending, after := pending + one.value.left, after + one.value.cells;
    }
    settled := Some(Settled(after, pending));
    busy := Sums.Sum(report.folds, WallOf);
  }

  lemma NothingTaught(facts: Facts)
    ensures TaughtAll(facts, []) == facts
  {
  }

  lemma {:induction false} StaysNone(report: Report, items: seq<Group>, cells: Cells, k: nat)
    requires Reported(items, report) && k <= |items|
    requires FoldTo(report, items, cells, k).None?
    ensures FoldTo(report, items, cells, |items|).None?
    decreases |items| - k
  {
    hide FoldItem, Reported, FoldTo;
    if k < |items| {
      FoldUnfolds(report, items, cells, k + 1);
      StaysNone(report, items, cells, k + 1);
    }
  }

  /** Item `i` never closed, every id of it has a cell, and its shard was cut at the top wall. */
  predicate Breaks(report: Report, items: seq<Group>, i: nat)
    requires i < |items| == |report.folds|
  {
    && !ClosedByItself(report.folds[i])
    && CutAtTop(report, i)
    && Unfinished(items[i], report.folds[i].cells.Keys) == []
  }

  lemma ItemFailsExactly(report: Report, items: seq<Group>, i: nat)
    requires i < |items| == |report.folds|
    ensures FoldItem(report, i, items[i], report.folds[i]).None? <==> Breaks(report, items, i)
  {
    hide Unfinished, CutAtTop, AtCeiling, ClosedByItself, Halves, Exited;
  }

  /** A FOLD FAILS EXACTLY when some item whose every id has a cell never closed in a shard cut at the top wall. */
  lemma {:induction false} FoldFailsExactly(report: Report, items: seq<Group>, cells: Cells, k: nat)
    requires Reported(items, report) && k <= |items|
    ensures FoldTo(report, items, cells, k).None? <==> exists i :: 0 <= i < k && Breaks(report, items, i)
  {
    hide Breaks, FoldItem, FoldTo;
    FoldUnfolds(report, items, cells, k);
    if k > 0 {
      ItemFailsExactly(report, items, k - 1);
      FoldFailsExactly(report, items, cells, k - 1);
    }
  }

  // ----- no id is lost or repeated in a round

  /** All the ids of `groups`, with their multiplicities. */
  function IdsIn(groups: seq<Group>): multiset<Id> {
    if groups == [] then multiset{} else IdsIn(groups[..|groups| - 1]) + multiset(groups[|groups| - 1])
  }

  function Celled(cells: Cells): multiset<Id> {
    multiset(cells.Keys)
  }

  predicate Once(ids: multiset<Id>) {
    forall id :: id in ids ==> ids[id] <= 1
  }

  predicate AllNonEmpty(groups: seq<Group>) {
    forall g :: g in groups ==> g != []
  }

  lemma PartOfOnce(part: multiset<Id>, rest: multiset<Id>, whole: multiset<Id>)
    requires Once(whole) && part + rest == whole
    ensures Once(part)
    ensures forall id :: id in part ==> id !in rest
  {
    forall id | id in part
      ensures part[id] <= 1 && id !in rest
    {
      assert whole[id] == part[id] + rest[id];
    }
  }

  lemma {:induction false} UnfinishedCounts(ids: Group, done: set<Id>, id: Id)
    ensures multiset(Unfinished(ids, done))[id] == if id in done then 0 else multiset(ids)[id]
  {
    if ids != [] {
      var front, last := ids[..|ids| - 1], ids[|ids| - 1];
      UnfinishedCounts(front, done, id);
      assert ids == front + [last];
      assert multiset(ids)[id] == multiset(front)[id] + multiset([last])[id];
      assert Unfinished(ids, done) == Unfinished(front, done) + if last in done then [] else [last];
      hide Unfinished;
    }
  }

  /** The ids of a group split exactly into those with a cell and those without. */
  lemma UnfinishedSplits(ids: Group, done: set<Id>)
    requires Once(multiset(ids)) && done <= set id | id in ids
    ensures multiset(Unfinished(ids, done)) + multiset(done) == multiset(ids)
  {
    forall id
      ensures (multiset(Unfinished(ids, done)) + multiset(done))[id] == multiset(ids)[id]
    {
      UnfinishedCounts(ids, done, id);
      assert id in ids <==> id in multiset(ids);
    }
  }

  lemma HalvesKeepAll(rest: Group)
    ensures IdsIn(Halves(rest)) == multiset(rest)
    ensures AllNonEmpty(Halves(rest))
  {
    var half := (|rest| + 1) / 2;
    assert rest == rest[..half] + rest[half..];
    OneGroup(rest[..half]);
    OneGroup(rest[half..]);
    GroupsConcatenate(NonEmpty(rest[..half]), NonEmpty(rest[half..]));
  }

  lemma OneGroup(ids: Group)
    ensures IdsIn(NonEmpty(ids)) == multiset(ids)
  {
    assert [ids][..0] == [];
  }

  lemma {:induction false} GroupsConcatenate(first: seq<Group>, second: seq<Group>)
    ensures IdsIn(first + second) == IdsIn(first) + IdsIn(second)
  {
    if second == [] {
      assert first + second == first;
    } else {
      assert (first + second)[..|first + second| - 1] == first + second[..|second| - 1];
      GroupsConcatenate(first, second[..|second| - 1]);
    }
  }

  lemma IdsInGrows(groups: seq<Group>, last: Group)
    ensures IdsIn(groups + [last]) == IdsIn(groups) + multiset(last)
  {
    assert (groups + [last])[..|groups|] == groups;
  }

  /** An item's ids split exactly into the ids it gives a cell and the ids it leaves, in non-empty groups. */
  predicate Conserves(ids: Group, settled: Settled) {
    && IdsIn(settled.left) + Celled(settled.cells) == multiset(ids)
    && AllNonEmpty(settled.left)
  }

  lemma UnreportedConserves(ids: Group, cells: Cells, rest: Group)
    requires multiset(rest) + Celled(cells) == multiset(ids) && Once(multiset(ids))
    ensures Conserves(ids, Settled(cells + Stamp(rest, Pending), []))
  {
    PartOfOnce(multiset(rest), Celled(cells), multiset(ids));
    assert (cells + Stamp(rest, Pending)).Keys == cells.Keys + set id | id in rest;
    OnceIsASet(rest);
    assert forall id :: id in rest ==> id in multiset(rest);
    DisjointUnion(cells.Keys, set id | id in rest);
  }

  /** Moving `moved` from what waits to what is celled keeps the whole. */
  lemma Moved(stays: multiset<Id>, moved: multiset<Id>, waiting: multiset<Id>, celled: multiset<Id>,
              whole: multiset<Id>)
    requires stays + moved == waiting && waiting + celled == whole
    ensures stays + (celled + moved) == whole
  {
  }

  lemma OneMoreKey(cells: Cells, id: Id, cell: Plain)
    requires id !in cells
    ensures Celled(cells[id := cell]) == Celled(cells) + multiset{id}
  {
    assert cells[id := cell].Keys == cells.Keys + {id};
  }

  lemma HitConserves(ids: Group, cells: Cells, rest: Group, hit: Id)
    requires multiset(rest) + Celled(cells) == multiset(ids) && Once(multiset(ids)) && hit in rest
    ensures Conserves(ids, Settled(cells[hit := Cell(Error, Ok)], NonEmpty(AllBut(rest, hit))))
  {
    hide Once, Unfinished;
    PartOfOnce(multiset(rest), Celled(cells), multiset(ids));
    assert hit in multiset(rest);
    UnfinishedSplits(rest, {hit});
    OneGroup(AllBut(rest, hit));
    assert hit !in cells.Keys;
    OneMoreKey(cells, hit, Cell(Error, Ok));
    Moved(multiset(AllBut(rest, hit)), multiset{hit}, multiset(rest), Celled(cells), multiset(ids));
  }

  lemma ExitedConserves(ids: Group, folded: Folded)
    requires Once(multiset(ids)) && folded.cells.Keys <= set id | id in ids
    ensures Conserves(ids, Exited(folded, Unfinished(ids, folded.cells.Keys)))
  {
    hide Conserves, AllBut;
    var rest := Unfinished(ids, folded.cells.Keys);
    UnfinishedSplits(ids, folded.cells.Keys);
    if folded.started.None? || folded.started.value !in rest {
      UnreportedConserves(ids, folded.cells, rest);
    } else {
      HitConserves(ids, folded.cells, rest, folded.started.value);
    }
  }

  lemma OnceIsASet(ids: Group)
    requires Once(multiset(ids))
    ensures multiset(set id | id in ids) == multiset(ids)
  {
    forall id
      ensures multiset(set id | id in ids)[id] == multiset(ids)[id]
    {
      assert id in ids <==> id in multiset(ids);
    }
  }

  lemma DisjointUnion(a: set<Id>, b: set<Id>)
    requires a !! b
    ensures multiset(a + b) == multiset(a) + multiset(b)
  {
  }

  lemma CutConserves(ids: Group, cells: Cells, rest: Group, cell: Plain)
    requires multiset(rest) + Celled(cells) == multiset(ids) && Once(multiset(ids)) && rest != []
    ensures Conserves(ids, Settled(cells[rest[0] := cell], NonEmpty(rest[1..])))
    ensures |rest| == 1 ==> Conserves(ids, Settled(cells[rest[0] := cell], []))
  {
    hide Once;
    assert rest == [rest[0]] + rest[1..];
    PartOfOnce(multiset(rest), Celled(cells), multiset(ids));
    assert rest[0] in multiset(rest);
    assert rest[0] !in cells.Keys;
    OneMoreKey(cells, rest[0], cell);
    assert multiset(rest) == multiset{rest[0]} + multiset(rest[1..]);
    Moved(multiset(rest[1..]), multiset{rest[0]}, multiset(rest), Celled(cells), multiset(ids));
    OneGroup(rest[1..]);
    if |rest| == 1 { assert rest[1..] == []; }
  }

  lemma ItemConserves(report: Report, item: nat, ids: Group, folded: Folded)
    requires Once(multiset(ids)) && folded.cells.Keys <= set id | id in ids
    requires FoldItem(report, item, ids, folded).Some?
    ensures Conserves(ids, FoldItem(report, item, ids, folded).value)
  {
    hide CutAtTop, AtCeiling, Unfinished, Exited, Halves, Conserves, ClosedByItself;
    var rest := Unfinished(ids, folded.cells.Keys);
    UnfinishedSplits(ids, folded.cells.Keys);
    ExitedConserves(ids, folded);
    if rest != [] {
      CutConserves(ids, folded.cells, rest, Cell(Timeout, Ok));
      CutConserves(ids, folded.cells, rest, Cell(OutOfMemory, Ok));
    }
    assert Conserves(ids, Settled(folded.cells, Halves(rest))) by { HalvesConserve(ids, folded.cells, rest); }
  }

  lemma HalvesConserve(ids: Group, cells: Cells, rest: Group)
    requires multiset(rest) + Celled(cells) == multiset(ids)
    ensures Conserves(ids, Settled(cells, Halves(rest)))
  {
    hide Halves;
    HalvesKeepAll(rest);
  }

  /** Every id of `whole` is in a group left to run, in an item not folded yet, or has a cell: once in all. */
  predicate Accounts(settled: Settled, tail: seq<Group>, whole: multiset<Id>) {
    && IdsIn(settled.left) + IdsIn(tail) + Celled(settled.cells) == whole
    && AllNonEmpty(settled.left)
  }

  lemma NoGroups()
    ensures IdsIn([]) == multiset{} && AllNonEmpty([])
  {
  }

  lemma MiddleIsOnce(left: multiset<Id>, ids: multiset<Id>, tail: multiset<Id>, celled: multiset<Id>,
                     whole: multiset<Id>)
    requires left + (ids + tail) + celled == whole && Once(whole)
    ensures Once(ids)
  {
    assert ids + (left + tail + celled) == whole;
    PartOfOnce(ids, left + tail + celled, whole);
  }

  /** Replacing `ids` by what it leaves and what it cells keeps the whole, and cells nothing twice. */
  lemma Exchanged(left: multiset<Id>, ids: multiset<Id>, tail: multiset<Id>, celled: multiset<Id>,
                  leaves: multiset<Id>, cells: multiset<Id>, whole: multiset<Id>)
    requires left + (ids + tail) + celled == whole && Once(whole) && leaves + cells == ids
    ensures (left + leaves) + tail + (celled + cells) == whole
    ensures forall id :: id in cells ==> id !in celled
  {
    assert cells + (left + leaves + tail + celled) == whole;
    PartOfOnce(cells, left + leaves + tail + celled, whole);
  }

  lemma CellsAdd(a: Cells, b: Cells)
    requires forall id :: id in Celled(b) ==> id !in Celled(a)
    ensures Celled(a + b) == Celled(a) + Celled(b)
  {
    assert forall id :: id in b ==> id in Celled(b);
    assert (a + b).Keys == a.Keys + b.Keys;
    DisjointUnion(a.Keys, b.Keys);
  }

  lemma HeadGroup(ids: Group, tail: seq<Group>)
    ensures IdsIn([ids] + tail) == multiset(ids) + IdsIn(tail)
  {
    GroupsConcatenate([ids], tail);
    assert [ids][..0] == [];
  }

  lemma AccountsForItem(before: Settled, ids: Group, tail: seq<Group>, one: Settled, whole: multiset<Id>)
    requires Once(whole) && Accounts(before, [ids] + tail, whole)
    requires Once(multiset(ids)) ==> Conserves(ids, one)
    ensures Once(multiset(ids))
    ensures Accounts(Settled(before.cells + one.cells, before.left + one.left), tail, whole)
  {
    hide Once, IdsIn, Celled;
    HeadGroup(ids, tail);
    MiddleIsOnce(IdsIn(before.left), multiset(ids), IdsIn(tail), Celled(before.cells), whole);
    Exchanged(IdsIn(before.left), multiset(ids), IdsIn(tail), Celled(before.cells), IdsIn(one.left), Celled(one.cells),
              whole);
    GroupsConcatenate(before.left, one.left);
    CellsAdd(before.cells, one.cells);
  }

  /** One more item keeps every id accounted for. */
  lemma FoldsOneMore(report: Report, items: seq<Group>, cells: Cells, k: nat, whole: multiset<Id>)
    requires Reported(items, report) && 0 < k <= |items| && Once(whole)
    requires FoldTo(report, items, cells, k).Some? && FoldTo(report, items, cells, k - 1).Some?
    requires Accounts(FoldTo(report, items, cells, k - 1).value, items[k - 1..], whole)
    ensures Accounts(FoldTo(report, items, cells, k).value, items[k..], whole)
  {
    hide FoldItem, Accounts, Conserves, Once;
    var ids, folded := items[k - 1], report.folds[k - 1];
    if Once(multiset(ids)) { ItemConserves(report, k - 1, ids, folded); }
    assert items[k - 1..] == [ids] + items[k..];
    AccountsForItem(FoldTo(report, items, cells, k - 1).value, ids, items[k..],
                    FoldItem(report, k - 1, ids, folded).value, whole);
  }

  /** After `k` items every id is still exactly where it was, or has a cell, or waits in a group to run. */
  lemma {:induction false} FoldConservesTo(report: Report, items: seq<Group>, cells: Cells, k: nat)
    requires Reported(items, report) && k <= |items|
    requires Once(IdsIn(items) + Celled(cells))
    requires FoldTo(report, items, cells, k).Some?
    ensures Accounts(FoldTo(report, items, cells, k).value, items[k..], IdsIn(items) + Celled(cells))
  {
    hide FoldItem, Reported, Accounts, Once, IdsIn, Celled;
    if k == 0 {
      assert items[0..] == items;
      NothingFolded(cells, items);
    } else {
      FoldConservesTo(report, items, cells, k - 1);
      FoldsOneMore(report, items, cells, k, IdsIn(items) + Celled(cells));
    }
  }

  lemma NothingFolded(cells: Cells, items: seq<Group>)
    ensures Accounts(Settled(cells, []), items, IdsIn(items) + Celled(cells))
  {
    NoGroups();
  }

  /** NO ID IS LOST OR REPEATED: a round's ids split exactly into newly celled ids and non-empty groups to run. */
  lemma FoldConserves(report: Report, items: seq<Group>, cells: Cells)
    requires Reported(items, report)
    requires Once(IdsIn(items) + Celled(cells))
    requires FoldTo(report, items, cells, |items|).Some?
    ensures var settled := FoldTo(report, items, cells, |items|).value;
            && IdsIn(settled.left) + Celled(settled.cells) == IdsIn(items) + Celled(cells)
            && AllNonEmpty(settled.left)
  {
    hide FoldTo, Reported, Once;
    FoldConservesTo(report, items, cells, |items|);
    assert items[|items|..] == [];
    NoGroups();
  }
}
