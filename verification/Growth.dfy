/** A run's memory growth per id: what an out-of-memory kill cuts asks more next round, what finished is itself
    again. */
module Growth {
  import opened Options
  import opened PytestItem
  import opened Measured
  import opened Records

  /** What a round was: its items, each item's shard state, the ids with a cell, and what its kills taught. */
  datatype Round = Round(items: seq<Group>, states: seq<ShardState>, cells: set<Id>, oom: bool, taught: set<string>)

  predicate Paired(round: Round) {
    |round.states| == |round.items|
  }

  /** What a memory kill interrupted in item `i`: its first id with no cell, unless the wall ended the shard. */
  function CutIn(round: Round, i: nat): set<Id>
    requires Paired(round) && i < |round.items|
  {
    var first := FirstUnfinished(round.items[i], round.cells);
    if first.Some? && round.oom && !round.states[i].TimedOut? then {first.value} else {}
  }

  /** The ids of item `i` with a cell, where memory did not end the shard. */
  function FinishedIn(round: Round, i: nat): set<Id>
    requires Paired(round) && i < |round.items|
  {
    if round.states[i].RanOutOfMemory? then {} else set n | n in round.items[i] && n in round.cells
  }

  function CutTo(round: Round, k: nat): set<Id>
    requires Paired(round) && k <= |round.items|
  {
    if k == 0 then {} else CutTo(round, k - 1) + CutIn(round, k - 1)
  }

  function FinishedTo(round: Round, k: nat): set<Id>
    requires Paired(round) && k <= |round.items|
  {
    if k == 0 then {} else FinishedTo(round, k - 1) + FinishedIn(round, k - 1)
  }

  function Cut(round: Round): set<Id>
    requires Paired(round)
  {
    CutTo(round, |round.items|)
  }

  /** The cut ids whose kill already floored what they need. */
  function Known(round: Round): set<Id>
    requires Paired(round)
  {
    set n | n in Cut(round) && (n in round.taught || FileOf(n) in round.taught)
  }

  function GrowthOf(grown: Amounts, id: Id): real {
    if id in grown then grown[id] else 1.0
  }

  function Grown(grown: Amounts, round: Round): Amounts
    requires Paired(round)
  {
    map n | n in grown.Keys + Cut(round) && n !in Known(round)
            && (n in Cut(round) || n !in FinishedTo(round, |round.items|)) ::
      if n in Cut(round) then GrowthOf(grown, n) * OOM_GROWTH else grown[n]
  }

  method GrownAfter(grown: Amounts, round: Round) returns (after: Amounts)
    requires Paired(round)
    ensures after == Grown(grown, round)
  {
    var cut: set<Id>, finished: set<Id> := {}, {};
    for i := 0 to |round.items|
      invariant cut == CutTo(round, i) && finished == FinishedTo(round, i)
    {
      if !round.states[i].RanOutOfMemory? {
        finished := finished + set n | n in round.items[i] && n in round.cells;
      }
      var rest := FirstUnfinished(round.items[i], round.cells);
      if rest.Some? && round.oom && !round.states[i].TimedOut? { cut := cut + {rest.value}; }
    }
    var known := set n | n in cut && (n in round.taught || FileOf(n) in round.taught);
    after := grown - ((finished - cut) + known);
    after := after + map n | n in cut - known :: GrowthOf(after, n) * OOM_GROWTH;
  }

  /** Some item a memory kill ended was running `id`: its first id without a cell, in a shard the wall did not end. */
  predicate CutByKill(round: Round, id: Id)
    requires Paired(round)
  {
    round.oom && exists i :: 0 <= i < |round.items| && !round.states[i].TimedOut?
                             && FirstUnfinished(round.items[i], round.cells) == Some(id)
  }

  /** `id` got a cell in a shard that did not run out of memory. */
  predicate FinishedSafely(round: Round, id: Id)
    requires Paired(round)
  {
    id in round.cells && exists i :: 0 <= i < |round.items| && !round.states[i].RanOutOfMemory? && id in round.items[i]
  }

  lemma {:induction false} CutExactly(round: Round, k: nat, id: Id)
    requires Paired(round) && k <= |round.items|
    ensures id in CutTo(round, k) <==>
            round.oom && exists i :: 0 <= i < k && !round.states[i].TimedOut?
                                     && FirstUnfinished(round.items[i], round.cells) == Some(id)
    ensures id in FinishedTo(round, k) <==>
            id in round.cells && exists i :: 0 <= i < k && !round.states[i].RanOutOfMemory? && id in round.items[i]
  {
    if k > 0 {
      CutExactly(round, k - 1, id);
    }
  }

  /** A cut id grows once a round, a taught one is not grown past what its kill taught, a finished one is itself again,
      and any other is left as it was. */
  lemma GrowsOnceARound(grown: Amounts, round: Round, id: Id)
    requires Paired(round)
    ensures var taught := id in round.taught || FileOf(id) in round.taught;
            GrowthOf(Grown(grown, round), id) ==
            if CutByKill(round, id) then if taught then 1.0 else 2.0 * GrowthOf(grown, id)
            else if FinishedSafely(round, id) then 1.0
            else GrowthOf(grown, id)
  {
    CutExactly(round, |round.items|, id);
  }

  function GrownOver(grown: Amounts, rounds: seq<Round>): Amounts
    requires forall k :: 0 <= k < |rounds| ==> Paired(rounds[k])
  {
    if rounds == [] then grown else Grown(GrownOver(grown, rounds[..|rounds| - 1]), rounds[|rounds| - 1])
  }

  /** Over every run of rounds growth only ever raises what an id needs; what that does to an item's ask is in Asks. */
  lemma {:induction false} GrowthStaysAtLeastOne(grown: Amounts, rounds: seq<Round>)
    requires GrowsOnly(grown) && forall k :: 0 <= k < |rounds| ==> Paired(rounds[k])
    ensures GrowsOnly(GrownOver(grown, rounds))
  {
    if rounds != [] {
      GrowthStaysAtLeastOne(grown, rounds[..|rounds| - 1]);
    }
  }
}
