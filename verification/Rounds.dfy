/**
 Whole cluster runs: any sequence of gather calls against any cluster. No test id is lost, run again once it has a
 cell, or celled twice; and the rounds end, although rounds judged out of memory are not counted.
 */
module Rounds {
  import opened PytestItem
  import opened Records
  import opened Gather
  import opened Sums

  /** One gather call: a finished round's report, or a waiting round tried again; and what submitting gives. */
  datatype Call = Folds(report: Report, submission: Submission, now: real) | Retries(submission: Submission, now: real)

  /** The plan only reorders the groups it is given. */
  predicate Rearranges(submission: Submission, groups: seq<Group>) {
    submission.Placed? ==> multiset(submission.items) == multiset(groups)
  }

  /** The groups a call hands to the submit, if it submits. */
  function Handed(s: State, call: Call): seq<Group>
    requires Possible(s, call)
  {
    match call
    case Folds(report, _, _) =>
      var folded := FoldTo(report, s.phase.items, s.cells, |s.phase.items|);
      if folded.None? then []
      else if Judged(report, AnyKilled(report))
      then BoundAll(folded.value.left, RanAlone(s.phase.items, report), s.oomLost, folded.value.cells).kept
      else folded.value.left
    case Retries(_, _) => s.phase.pending
  }

  /** A call the protocol may make in this state: a report of the round in flight, or a retry of a waiting one. */
  predicate Possible(s: State, call: Call) {
    match call
    case Folds(report, _, _) => s.phase.InFlight? && Reported(s.phase.items, report)
    case Retries(_, _) => s.phase.Waiting?
  }

  predicate Planned(s: State, call: Call) {
    Possible(s, call) && Rearranges(call.submission, Handed(s, call))
  }

  /** The state after a call; a failed fold leaves it as it was. */
  function After(s: State, call: Call, stallMinutes: real): State
    requires Possible(s, call)
  {
    match call
    case Folds(report, submission, now) =>
      var after := Gathered(s, report, submission, now);
      if after.Some? then after.value else s
    case Retries(submission, now) => Retried(s, submission, now, stallMinutes)
  }

  predicate AllPlanned(s: State, calls: seq<Call>, stallMinutes: real)
    decreases |calls|
  {
    calls == [] ||
    (Planned(s, calls[0]) && AllPlanned(After(s, calls[0], stallMinutes), calls[1..], stallMinutes))
  }

  function Run(s: State, calls: seq<Call>, stallMinutes: real): State
    requires AllPlanned(s, calls, stallMinutes)
    decreases |calls|
  {
    if calls == [] then s else Run(After(s, calls[0], stallMinutes), calls[1..], stallMinutes)
  }

  // ----- no test id is lost or repeated

  /** The groups still to run. */
  function Owed(s: State): seq<Group> {
    match s.phase
    case InFlight(items, _) => items
    case Waiting(pending, _) => pending
    case Recorded => []
  }

  /** Every id of `whole` either has a cell or is in one non-empty group to run, once in all. */
  ghost predicate Covers(s: State, whole: multiset<Id>) {
    && IdsIn(Owed(s)) + Celled(s.cells) == whole
    && AllNonEmpty(Owed(s))
  }

  lemma {:induction false} RearrangedIds(a: seq<Group>, b: seq<Group>)
    requires multiset(a) == multiset(b)
    ensures IdsIn(a) == IdsIn(b)
    ensures AllNonEmpty(a) ==> AllNonEmpty(b)
  {
    SameMembers(a, b);
    if a == [] {
      assert |multiset(b)| == |b| == 0;
    } else {
      var g := a[|a| - 1];
      assert g in multiset(b);
      var k :| 0 <= k < |b| && b[k] == g;
      var rest := b[..k] + b[k + 1..];
      TakenOut(a, b, k);
      RearrangedIds(a[..|a| - 1], rest);
      DropOne(b, k);
    }
  }

  lemma SameMembers(a: seq<Group>, b: seq<Group>)
    requires multiset(a) == multiset(b)
    ensures AllNonEmpty(a) ==> AllNonEmpty(b)
  {
    forall g | g in b
      ensures g in a
    {
      assert g in multiset(b);
    }
  }

  lemma DropOne(b: seq<Group>, k: nat)
    requires k < |b|
    ensures IdsIn(b) == IdsIn(b[..k] + b[k + 1..]) + multiset(b[k])
  {
    hide IdsIn;
    assert b == b[..k] + ([b[k]] + b[k + 1..]);
    GroupsConcatenate(b[..k], [b[k]] + b[k + 1..]);
    HeadGroup(b[k], b[k + 1..]);
    GroupsConcatenate(b[..k], b[k + 1..]);
    Interchanged(IdsIn(b[..k]), IdsIn(b[k + 1..]), multiset(b[k]));
  }

  lemma Interchanged(a: multiset<Id>, b: multiset<Id>, c: multiset<Id>)
    ensures a + (c + b) == (a + b) + c
  {
  }

  lemma StampCells(ids: Group, status: Status, cells: Cells, whole: multiset<Id>, others: multiset<Id>)
    requires others + multiset(ids) + Celled(cells) == whole && Once(whole)
    ensures others + Celled(cells + Stamp(ids, status)) == whole
  {
    var stamped := Stamp(ids, status);
    assert multiset(ids) + (others + Celled(cells)) == whole;
    PartOfOnce(multiset(ids), others + Celled(cells), whole);
    assert stamped.Keys == set id | id in ids;
    OnceIsASet(ids);
    assert Celled(stamped) == multiset(ids);
    CellsAdd(cells, stamped);
  }

  /** Settling stamps every id left. */
  lemma {:induction false} CellAllCovers(cells: Cells, groups: seq<Group>, status: Status, whole: multiset<Id>,
                                         others: multiset<Id>)
    requires others + IdsIn(groups) + Celled(cells) == whole && Once(whole)
    ensures others + Celled(CellAll(cells, groups, status)) == whole
  {
    if groups != [] {
      hide Once, Celled;
      var front, last := groups[..|groups| - 1], groups[|groups| - 1];
      assert (others + multiset(last)) + IdsIn(front) + Celled(cells) == whole;
      CellAllCovers(cells, front, status, whole, others + multiset(last));
      StampCells(last, status, CellAll(cells, front, status), whole, others);
    }
  }

  lemma OneLoneCell(group: Group, cells: Cells, cell: Plain, kept: multiset<Id>, whole: multiset<Id>)
    requires |group| == 1 && kept + multiset(group) + Celled(cells) == whole && Once(whole)
    ensures kept + Celled(cells[group[0] := cell]) == whole
  {
    assert group == [group[0]];
    assert multiset(group) + (kept + Celled(cells)) == whole;
    PartOfOnce(multiset(group), kept + Celled(cells), whole);
    assert group[0] in multiset(group);
    OneMoreKey(cells, group[0], cell);
  }

  /** Bounding lone ids moves each dropped one from the groups to the cells. */
  lemma {:induction false} BoundCovers(pending: seq<Group>, alone: set<Id>, lost: map<Id, nat>, cells: Cells,
                                       whole: multiset<Id>, others: multiset<Id>)
    requires others + IdsIn(pending) + Celled(cells) == whole && Once(whole) && AllNonEmpty(pending)
    ensures var bounded := BoundAll(pending, alone, lost, cells);
            && others + IdsIn(bounded.kept) + Celled(bounded.cells) == whole
            && AllNonEmpty(bounded.kept)
  {
    if pending != [] {
      hide Once, Celled, Counted, Lost;
      var front, last := pending[..|pending| - 1], pending[|pending| - 1];
      assert pending == front + [last] && last in pending && forall g :: g in front ==> g in pending;
      assert (others + multiset(last)) + IdsIn(front) + Celled(cells) == whole;
      BoundCovers(front, alone, lost, cells, whole, others + multiset(last));
      BoundOneCovers(BoundAll(front, alone, lost, cells), last, alone, whole, others);
    }
  }

  lemma BoundOneCovers(before: Bounded, last: Group, alone: set<Id>, whole: multiset<Id>, others: multiset<Id>)
    requires (others + multiset(last)) + IdsIn(before.kept) + Celled(before.cells) == whole && Once(whole)
    requires AllNonEmpty(before.kept) && last != []
    ensures var after := BoundOne(before, last, alone);
            && others + IdsIn(after.kept) + Celled(after.cells) == whole
            && AllNonEmpty(after.kept)
  {
    hide Once, Celled, IdsIn, AllNonEmpty, Lost;
    KeptOneMore(before.kept, last);
    Regrouped(others, multiset(last), IdsIn(before.kept), Celled(before.cells));
    if Counted(last, alone) {
      OneLoneCell(last, before.cells, Cell(OutOfMemory, Ok), others + IdsIn(before.kept), whole);
    }
  }

  lemma KeptOneMore(kept: seq<Group>, last: Group)
    requires AllNonEmpty(kept) && last != []
    ensures IdsIn(kept + [last]) == IdsIn(kept) + multiset(last) && AllNonEmpty(kept + [last])
  {
    GroupsConcatenate(kept, [last]);
    assert [last][..0] == [];
  }

  lemma Regrouped<T>(others: multiset<T>, last: multiset<T>, kept: multiset<T>, cells: multiset<T>)
    ensures (others + last) + kept + cells == others + (kept + last) + cells == (others + kept) + last + cells
  {
  }

  lemma ResubmitCovers(s: State, pending: seq<Group>, submission: Submission, since: real, whole: multiset<Id>)
    requires IdsIn(pending) + Celled(s.cells) == whole && Once(whole) && AllNonEmpty(pending)
    requires Rearranges(submission, pending)
    ensures Covers(Resubmit(s, pending, submission, since), whole)
  {
    hide Once, Celled, CellAll;
    match submission
    case Placed(items, _) => RearrangedIds(pending, items);
    case Full =>
    case Unplaceable => SettleCovers(s, pending, Unavailable, whole);
  }

  lemma SettleCovers(s: State, pending: seq<Group>, status: Status, whole: multiset<Id>)
    requires IdsIn(pending) + Celled(s.cells) == whole && Once(whole)
    ensures Covers(Settle(s, pending, status), whole)
  {
    hide Once, Celled, CellAll;
    assert multiset{} + IdsIn(pending) + Celled(s.cells) == whole;
    CellAllCovers(s.cells, pending, status, whole, multiset{});
    NoGroups();
  }

  lemma FoldsCover(s: State, call: Call, whole: multiset<Id>, stallMinutes: real)
    requires Covers(s, whole) && Once(whole) && Planned(s, call) && call.Folds?
    ensures Covers(After(s, call, stallMinutes), whole)
  {
    hide Once, Celled, FoldTo, Reported, BoundAll, CellAll, Judged, AnyKilled, RanAlone, Rearranges, IdsIn;
    var items := s.phase.items;
    var folded := FoldTo(call.report, items, s.cells, |items|);
    if folded.Some? {
      FoldConserves(call.report, items, s.cells);
      var left, cells := folded.value.left, folded.value.cells;
      var alone := RanAlone(items, call.report);
      assert multiset{} + IdsIn(left) + Celled(cells) == whole;
      BoundCovers(left, alone, s.oomLost, cells, whole, multiset{});
      var kept := Handed(s, call);
      var after := if Judged(call.report, AnyKilled(call.report)) then BoundAll(left, alone, s.oomLost, cells)
                   else Bounded(left, s.oomLost, cells);
      var next := s.(cells := after.cells, oomLost := after.lost);
      assert kept == after.kept && IdsIn(kept) + Celled(next.cells) == whole;
      ResubmitCovers(next, kept, call.submission, call.now, whole);
      SettleCovers(next, kept, Infra, whole);
    }
  }

  lemma CallCovers(s: State, call: Call, whole: multiset<Id>, stallMinutes: real)
    requires Covers(s, whole) && Once(whole) && Planned(s, call)
    ensures Covers(After(s, call, stallMinutes), whole)
  {
    hide Once, Celled, CellAll, IdsIn, Rearranges;
    if call.Folds? {
      FoldsCover(s, call, whole, stallMinutes);
    } else {
      ResubmitCovers(s, s.phase.pending, call.submission, call.now, whole);
      SettleCovers(s, s.phase.pending, Infra, whole);
    }
  }

  /**
   NO TEST ID IS LOST OR REPEATED over any run of gather calls: each id a run started with either has a cell or is in
   exactly one group to run, never both; so a celled id is never submitted again, and a written record's cells are
   exactly the ids the run started with.
   */
  lemma {:induction false} NoIdLostOrRepeated(s: State, calls: seq<Call>, whole: multiset<Id>, stallMinutes: real)
    requires Covers(s, whole) && Once(whole) && AllPlanned(s, calls, stallMinutes)
    ensures var end := Run(s, calls, stallMinutes);
            && Covers(end, whole)
            && (forall id :: id in end.cells ==> id !in IdsIn(Owed(end)))
            && (end.phase.Recorded? ==> Celled(end.cells) == whole)
    decreases |calls|
  {
    if calls == [] {
      NoGroups();
      PartOfOnce(Celled(s.cells), IdsIn(Owed(s)), whole);
      assert forall id :: id in s.cells ==> id in Celled(s.cells);
    } else {
      hide After, Covers, Once;
      CallCovers(s, calls[0], whole, stallMinutes);
      NoIdLostOrRepeated(After(s, calls[0], stallMinutes), calls[1..], whole, stallMinutes);
    }
  }
}
