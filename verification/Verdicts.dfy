/** A test's verdict is only ever its own report: what the cluster does to a run is never a pass, a miss or a skip. */
module Verdicts {
  import opened PytestItem
  import opened Measured
  import opened Records
  import opened Gather
  import opened Rounds

  /** A cell that decides its test, or the retired word of one. */
  predicate Verdict(plain: Plain) {
    plain.Word? || Decided(plain.status)
  }

  /** Where a verdict in `after` may come from: the cells before, or some item's stream of the round. */
  predicate FromStream(report: Report, k: int, id: Id, plain: Plain) {
    exists i :: 0 <= i < k && i < |report.folds| && id in report.folds[i].cells && report.folds[i].cells[id] == plain
  }

  /** `id` has the verdict `plain`. */
  predicate Ruled(cells: Cells, id: Id, plain: Plain) {
    id in cells && cells[id] == plain && Verdict(plain)
  }

  lemma ItemVerdict(report: Report, item: nat, ids: Group, folded: Folded, id: Id, plain: Plain)
    requires FoldItem(report, item, ids, folded).Some?
    requires Ruled(FoldItem(report, item, ids, folded).value.cells, id, plain)
    ensures id in folded.cells && folded.cells[id] == plain
  {
    hide Unfinished, CutAtTop, AtCeiling, ClosedByItself, Halves;
  }

  lemma {:induction false} FoldVerdict(report: Report, items: seq<Group>, cells: Cells, k: nat, id: Id, plain: Plain)
    requires Reported(items, report) && k <= |items| && FoldTo(report, items, cells, k).Some?
    requires Ruled(FoldTo(report, items, cells, k).value.cells, id, plain)
    ensures Ruled(cells, id, plain) || FromStream(report, k, id, plain)
  {
    hide FoldTo, FoldItem, Verdict;
    FoldUnfolds(report, items, cells, k);
    if k > 0 {
      var one := FoldItem(report, k - 1, items[k - 1], report.folds[k - 1]).value;
      if id in one.cells {
        ItemVerdict(report, k - 1, items[k - 1], report.folds[k - 1], id, plain);
      } else {
        FoldVerdict(report, items, cells, k - 1, id, plain);
      }
    }
  }

  lemma {:induction false} BoundVerdict(pending: seq<Group>, alone: set<Id>, lost: map<Id, nat>, cells: Cells, id: Id,
                                        plain: Plain)
    requires Ruled(BoundAll(pending, alone, lost, cells).cells, id, plain)
    ensures Ruled(cells, id, plain)
  {
    if pending != [] {
      BoundVerdict(pending[..|pending| - 1], alone, lost, cells, id, plain);
    }
  }

  lemma {:induction false} ClosingVerdict(cells: Cells, groups: seq<Group>, status: Status, id: Id, plain: Plain)
    requires !Decided(status) && Ruled(CellAll(cells, groups, status), id, plain)
    ensures Ruled(cells, id, plain)
  {
    if groups != [] {
      ClosingVerdict(cells, groups[..|groups| - 1], status, id, plain);
    }
  }

  lemma ResubmitVerdict(s: State, pending: seq<Group>, submission: Submission, since: real, id: Id, plain: Plain)
    requires Ruled(Resubmit(s, pending, submission, since).cells, id, plain)
    ensures Ruled(s.cells, id, plain)
  {
    hide Ruled, CellAll;
    if submission.Unplaceable? { ClosingVerdict(s.cells, pending, Unavailable, id, plain); }
  }

  /** The call's own stream says so. */
  predicate SaidBy(call: Call, id: Id, plain: Plain) {
    call.Folds? && FromStream(call.report, |call.report.folds|, id, plain)
  }

  lemma CallVerdict(s: State, call: Call, stallMinutes: real, id: Id, plain: Plain)
    requires Possible(s, call) && Ruled(After(s, call, stallMinutes).cells, id, plain)
    ensures Ruled(s.cells, id, plain) || SaidBy(call, id, plain)
  {
    hide Ruled, CellAll, BoundAll, FoldTo, Judged, AnyKilled, RanAlone, FromStream;
    match call
    case Retries(submission, now) =>
      if !submission.Full? {
        ResubmitVerdict(s, s.phase.pending, submission, now, id, plain);
      } else if After(s, call, stallMinutes) != s {
        ClosingVerdict(s.cells, s.phase.pending, Infra, id, plain);
      }
    case Folds(report, submission, now) =>
      if Gathered(s, report, submission, now).Some? { GatheredVerdict(s, report, submission, now, id, plain); }
  }

  lemma GatheredVerdict(s: State, report: Report, submission: Submission, now: real, id: Id, plain: Plain)
    requires s.phase.InFlight? && Reported(s.phase.items, report)
    requires Gathered(s, report, submission, now).Some?
    requires Ruled(Gathered(s, report, submission, now).value.cells, id, plain)
    ensures Ruled(s.cells, id, plain) || FromStream(report, |report.folds|, id, plain)
  {
    hide Ruled, CellAll, BoundAll, FoldTo, Judged, AnyKilled, RanAlone, FromStream, Reported;
    var items := s.phase.items;
    var folded := FoldTo(report, items, s.cells, |items|).value;
    var oom := Judged(report, AnyKilled(report));
    var bounded := if oom then BoundAll(folded.left, RanAlone(items, report), s.oomLost, folded.cells)
                   else Bounded(folded.left, s.oomLost, folded.cells);
    var after := s.(cells := bounded.cells, oomLost := bounded.lost);
    if bounded.kept != [] && (s.rounds <= RETRIES || (oom && s.phase.ceiling)) {
      ResubmitVerdict(after, bounded.kept, submission, now, id, plain);
    } else {
      ClosingVerdict(after.cells, bounded.kept, Infra, id, plain);
    }
    if oom { BoundVerdict(folded.left, RanAlone(items, report), s.oomLost, folded.cells, id, plain); }
    assert |report.folds| == |items| by { OneFoldEach(items, report); }
    FoldVerdict(report, items, s.cells, |items|, id, plain);
  }

  lemma OneFoldEach(items: seq<Group>, report: Report)
    requires Reported(items, report)
    ensures |report.folds| == |items|
  {
  }

  /**
   A VERDICT IS A REPORT: over every run of gather calls, a cell that decides a test was there at the start or is what
   some round's stream reported for that very test. A kill, a lost task or a refused placement never decides one.
   */
  lemma {:induction false} VerdictsAreReported(s: State, calls: seq<Call>, stallMinutes: real, id: Id, plain: Plain)
    requires AllPlanned(s, calls, stallMinutes) && Ruled(Run(s, calls, stallMinutes).cells, id, plain)
    ensures Ruled(s.cells, id, plain) || exists c :: 0 <= c < |calls| && SaidBy(calls[c], id, plain)
    decreases |calls|
  {
    if calls != [] {
      hide After, Ruled, SaidBy;
      VerdictsAreReported(After(s, calls[0], stallMinutes), calls[1..], stallMinutes, id, plain);
      if Ruled(After(s, calls[0], stallMinutes).cells, id, plain) {
        CallVerdict(s, calls[0], stallMinutes, id, plain);
      } else {
        var c :| 0 <= c < |calls[1..]| && SaidBy(calls[1..][c], id, plain);
        assert SaidBy(calls[c + 1], id, plain);
      }
    }
  }
}
