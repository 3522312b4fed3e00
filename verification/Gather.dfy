/**
 The retry protocol of a cluster run, driven by gather calls: a finished round is folded, what it left unfinished is
 submitted again or waits for room, and when nothing more may run the record is written.
 */
module Gather {
  import opened Options
  import opened PytestItem
  import opened Measured
  import opened Records

  /** How often a run may submit again what did not finish, out-of-memory rounds aside. */
  const RETRIES := 2
  /** How many memory kills an id that ran alone survives before it is given its cell. */
  const OOM_ROUNDS := 3

  /**
   A round in flight (and whether some grant's memory ceiling bounds it), groups waiting for submit room since some
   moment, or the record written.
   */
  datatype Phase = InFlight(items: seq<Group>, ceiling: bool) | Waiting(pending: seq<Group>, since: real) | Recorded

  datatype State = State(cells: Cells, rounds: nat, oomLost: map<Id, nat>, phase: Phase)

  /** What submitting a round gives: items in the plan's order, no room now, or no grant that can ever take it. */
  datatype Submission = Placed(items: seq<Group>, ceiling: bool) | Full | Unplaceable

  // ----- ids that run alone

  function Lost(lost: map<Id, nat>, id: Id): (times: nat)
    ensures id in lost ==> times == lost[id]
    ensures id !in lost ==> times == 0
  {
    if id in lost then lost[id] else 0
  }

  /** The ids that ran alone in a shard not killed for time. */
  function RanAlone(items: seq<Group>, report: Report): set<Id> {
    set i | 0 <= i < |items| && |items[i]| == 1 && !InTimedOutShard(report, i) :: items[i][0]
  }

  predicate Counted(group: Group, alone: set<Id>) {
    |group| == 1 && group[0] in alone
  }

  datatype Bounded = Bounded(kept: seq<Group>, lost: map<Id, nat>, cells: Cells)

  function BoundOne(before: Bounded, group: Group, alone: set<Id>): Bounded {
    if !Counted(group, alone) then before.(kept := before.kept + [group])
    else
      var times := Lost(before.lost, group[0]) + 1;
      var lost := before.lost[group[0] := times];
      if times >= OOM_ROUNDS then before.(lost := lost, cells := before.cells[group[0] := Cell(OutOfMemory, Ok)])
      else Bounded(before.kept + [group], lost, before.cells)
  }

  /** `pending` less each lone id killed for memory in too many rounds, which gets its cell. */
  function BoundAll(pending: seq<Group>, alone: set<Id>, lost: map<Id, nat>, cells: Cells): Bounded {
    if pending == [] then Bounded([], lost, cells)
    else BoundOne(BoundAll(pending[..|pending| - 1], alone, lost, cells), pending[|pending| - 1], alone)
  }

  // ----- one gather call

  predicate Judged(report: Report, killed: bool) {
    || (exists n :: 0 <= n < |report.states| && report.states[n].RanOutOfMemory?)
    || (killed && !exists n :: 0 <= n < |report.states| && report.states[n].TimedOut?)
  }

  function CellAll(cells: Cells, groups: seq<Group>, status: Status): Cells {
    if groups == [] then cells
    else CellAll(cells, groups[..|groups| - 1], status) + Stamp(groups[|groups| - 1], status)
  }

  function Settle(s: State, pending: seq<Group>, status: Status): State {
    s.(cells := CellAll(s.cells, pending, status), phase := Recorded)
  }

  /** The retry round: in flight, waiting for room since `since`, or settled because no grant can take it. */
  function Resubmit(s: State, pending: seq<Group>, submission: Submission, since: real): State {
    match submission
    case Placed(items, ceiling) => s.(rounds := s.rounds + 1, phase := InFlight(items, ceiling))
    case Full => s.(phase := Waiting(pending, since))
    case Unplaceable => Settle(s, pending, Unavailable)
  }

  /** A finished round folded; `None` where the fold fails. */
  function Gathered(s: State, report: Report, submission: Submission, now: real): Option<State>
    requires s.phase.InFlight? && Reported(s.phase.items, report)
  {
    var items := s.phase.items;
    var folded := FoldTo(report, items, s.cells, |items|);
    if folded.None? then None
    else
      var oom := Judged(report, AnyKilled(report));
      var bounded := if oom then BoundAll(folded.value.left, RanAlone(items, report), s.oomLost, folded.value.cells)
                     else Bounded(folded.value.left, s.oomLost, folded.value.cells);
      var after := s.(cells := bounded.cells, oomLost := bounded.lost);
      if bounded.kept != [] && (s.rounds <= RETRIES || (oom && s.phase.ceiling))
      then Some(Resubmit(after, bounded.kept, submission, now))
      else Some(Settle(after, bounded.kept, Infra))
  }

  /** A waiting round tried again: submitted, still waiting within the stall bound, or settled with what ran. */
  function Retried(s: State, submission: Submission, now: real, stallMinutes: real): State
    requires s.phase.Waiting?
  {
    if submission.Full? then
      if (now - s.phase.since) / 60.0 < stallMinutes then s else Settle(s, s.phase.pending, Infra)
    else Resubmit(s, s.phase.pending, submission, now)
  }

  /** The run's state as the file every gather call reads and writes back. */
  class RunFile {
    var cells: Cells
    var rounds: nat
    var oomLost: map<Id, nat>
    var phase: Phase

    function Contents(): State
      reads this
    {
      State(cells, rounds, oomLost, phase)
    }

    constructor (start: State)
      ensures Contents() == start
    {
      cells, rounds, oomLost, phase := start.cells, start.rounds, start.oomLost, start.phase;
    }

    method BoundLoneIds(pending: seq<Group>, alone: set<Id>) returns (kept: seq<Group>)
      modifies this`oomLost, this`cells
      ensures Bounded(kept, oomLost, cells) == BoundAll(pending, alone, old(oomLost), old(cells))
    {
      kept := [];
      for i := 0 to |pending|
        invariant Bounded(kept, oomLost, cells) == BoundAll(pending[..i], alone, old(oomLost), old(cells))
      {
        assert pending[..i + 1][..i] == pending[..i];
        var group := pending[i];
        if Counted(group, alone) {
          var node := group[0];
          oomLost := oomLost[node := Lost(oomLost, node) + 1];
          if oomLost[node] >= OOM_ROUNDS {
            cells := cells[node := Cell(OutOfMemory, Ok)];
            continue;
          }
        }
        kept := kept + [group];
      }
      assert pending[..|pending|] == pending;
    }

    method StampAll(pending: seq<Group>, status: Status)
      modifies this`cells, this`phase
      ensures Contents() == Settle(old(Contents()), pending, status)
    {
      for i := 0 to |pending|
        invariant cells == CellAll(old(cells), pending[..i], status)
        invariant phase == old(phase)
      {
        assert pending[..i + 1][..i] == pending[..i];
        cells := cells + Stamp(pending[i], status);
      }
      assert pending[..|pending|] == pending;
      phase := Recorded;
    }

    method Submit(pending: seq<Group>, submission: Submission, since: real)
      modifies this
      ensures Contents() == Resubmit(old(Contents()), pending, submission, since)
    {
      match submission
      case Placed(items, ceiling) => rounds, phase := rounds + 1, InFlight(items, ceiling);
      case Full => phase := Waiting(pending, since);
      case Unplaceable => StampAll(pending, Unavailable);
    }

    /** One gather of a finished round; the state is unchanged where the fold fails. */
    method GatherRound(report: Report, submission: Submission, now: real, table: Table) returns (ok: bool)
      requires phase.InFlight? && Reported(phase.items, report)
      modifies this, table
      ensures var after := Gathered(old(Contents()), report, submission, now);
              && ok == after.Some?
              && Contents() == if ok then after.value else old(Contents())
    {
      hide FoldTo, Reported, BoundAll, Judged, RanAlone;
      ghost var before := Contents();
      var items, ceiling := phase.items, phase.ceiling;
      var settled, killed, _ := Fold(items, report, cells, table);
      assert Contents() == before;
      if settled.None? { return false; }
      var oom := Judged(report, killed);
      cells := settled.value.cells;
      var pending := settled.value.left;
      if oom { pending := BoundLoneIds(pending, RanAlone(items, report)); }
      if pending != [] && (rounds <= RETRIES || (oom && ceiling)) {
        Submit(pending, submission, now);
      } else {
        StampAll(pending, Infra);
      }
      ok := true;
    }

    method RetryWaiting(submission: Submission, now: real, stallMinutes: real)
      requires phase.Waiting?
      modifies this
      ensures Contents() == Retried(old(Contents()), submission, now, stallMinutes)
    {
      var pending, since := phase.pending, phase.since;
      if submission.Full? {
        if (now - since) / 60.0 >= stallMinutes { StampAll(pending, Infra); }
      } else {
        Submit(pending, submission, now);
      }
    }
  }
}
