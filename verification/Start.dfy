/** How a run starts: what was collected becomes cells, packed items and a first round; and what its record covers. */
module Start {
  import opened Options
  import opened PytestItem
  import opened Measured
  import opened Records
  import opened Gather
  import opened Rounds
  import opened RoundsEnd
  import opened Packing
  import Submits

  /** A file that failed to collect is a rejected cell. */
  function Broken(errored: seq<Id>): Cells {
    map e | e in errored :: Cell(Rejected, Ok)
  }

  /** The cells earlier runs hold for collected ids that neither broke nor went to another part. */
  function Taken(ids: seq<Id>, errored: seq<Id>, handed: set<Id>, offered: Cells): Cells {
    map n | n in offered && n in ids && n !in errored && n !in handed :: offered[n]
  }

  /** The ids this run has to run itself. */
  function Todo(ids: seq<Id>, errored: seq<Id>, handed: set<Id>, offered: Cells): seq<Id> {
    Unfinished(ids, handed + Taken(ids, errored, handed, offered).Keys)
  }

  /** What a record of the run has to cover: the collection errors, and every collected id not handed to another
      part. */
  function Collected(ids: seq<Id>, errored: seq<Id>, handed: set<Id>): set<Id> {
    (set e | e in errored) + (set n | n in ids && n !in handed)
  }

  function Begun(ids: seq<Id>, errored: seq<Id>, handed: set<Id>, offered: Cells, items: seq<Group>,
                 ceiling: bool): State {
    var cells := Broken(errored) + Taken(ids, errored, handed, offered);
    if items == [] then State(cells, 0, map[], Recorded) else State(cells, 1, map[], InFlight(items, ceiling))
  }

  function Banding(gb: Group -> real): Group -> nat {
    (g: Group) => Submits.MemoryBand(gb(g))
  }

  /**
   The run's first state, `None` where nothing was collected or no grant takes the first round now. `gb` and `seconds`
   price a group, `cut` is the plan's cut of a memory class of so many items into shards, and `taken` says whether some
   grant takes the round. What is to run is packed file by file, and the first round's items are what was packed.
   */
  method SubmitRun(ids: seq<Id>, errored: seq<Id>, handed: set<Id>, offered: Cells, gb: Group -> real,
                   seconds: Group -> real, budget: real, grantable: Option<real>, cut: (nat, nat) -> seq<(nat, nat)>,
                   taken: bool)
    returns (run: Option<RunFile>, ghost items: seq<Group>, ghost packed: seq<Group>)
    requires (forall g :: seconds(g) > 0.0) && forall key, n :: Tiles(cut(key, n), n)
    ensures run.None? <==> ids == [] || (!taken && Todo(ids, errored, handed, offered) != [])
    ensures run.Some? ==>
              && fresh(run.value)
              && run.value.Contents() == Begun(ids, errored, handed, offered, items, grantable.Some?)
              && IdsIn(items) == multiset(Todo(ids, errored, handed, offered)) && AllNonEmpty(items)
              && multiset(items) == multiset(packed)
              && PackedFrom(Todo(ids, errored, handed, offered), gb, seconds, budget, packed)
  {
    hide Submits.Keys, Submits.Members, Submits.Manifest, Submits.AtEach, Submits.MemoryBand, Submits.AllPositive,
         Tiles, Packed, PerFile, IdsIn, Todo, Broken, Taken;
    items, packed := [], [];
    if ids == [] { return None, items, packed; }
    var todo := Todo(ids, errored, handed, offered);
    var cells := Broken(errored) + Taken(ids, errored, handed, offered);
    var files := GroupItems(todo);
    var pending := Pack(files, Banding(gb), seconds, budget);
    ghost var spans :| Packed(Banded(files, Banding(gb)), |files|, Banding(gb), seconds, budget, spans, pending);
    PendingKeepsAll(todo, files, gb, seconds, budget, spans, pending);
    packed := pending;
    assert PackedFrom(todo, gb, seconds, budget, packed) by { NamedPacked(todo, gb, seconds, budget, spans, pending); }
    if pending == [] {
      NoGroups();
      var done := new RunFile(State(cells, 0, map[], Recorded));
      return Some(done), items, packed;
    }
    SomeIsOwed(pending);
    if !taken { return None, items, packed; }
    var placed, shards, arrays;
    ghost var order;
    placed, shards, arrays, order := FirstRound(pending, gb, seconds, grantable, cut);
    items := placed;
    var started := new RunFile(State(cells, 1, map[], InFlight(placed, grantable.Some?)));
    run := Some(started);
  }

  /** What is to run, grouped by file, sorted by memory class and packed. */
  ghost predicate PackedFrom(todo: seq<Id>, gb: Group -> real, seconds: Group -> real, budget: real,
                             packed: seq<Group>) {
    var files := PerFile(todo, Files(todo));
    exists spans :: Packed(Banded(files, Banding(gb)), |files|, Banding(gb), seconds, budget, spans, packed)
  }

  lemma NamedPacked(todo: seq<Id>, gb: Group -> real, seconds: Group -> real, budget: real, spans: seq<(nat, nat)>,
                    pending: seq<Group>)
    requires var files := PerFile(todo, Files(todo));
             Packed(Banded(files, Banding(gb)), |files|, Banding(gb), seconds, budget, spans, pending)
    ensures PackedFrom(todo, gb, seconds, budget, pending)
  {
    hide Packed, Banded, PerFile, Files;
  }

  function Priced(groups: seq<Group>, price: Group -> real): (prices: seq<real>)
    ensures |prices| == |groups| && forall k :: 0 <= k < |groups| ==> prices[k] == price(groups[k])
  {
    seq(|groups|, k requires 0 <= k < |groups| => price(groups[k]))
  }

  /** How many shards the plan cuts each class into, over its items. */
  function Cuts(held: seq<real>, cut: (nat, nat) -> seq<(nat, nat)>): map<nat, seq<(nat, nat)>> {
    map key | key in Submits.Keys(held) :: cut(key, |Submits.Members(held, key)|)
  }

  /** A round laid out: one array a memory class of what the groups ask, each class as balanced over its planned cut. */
  ghost predicate LaidOut(pending: seq<Group>, gb: Group -> real, seconds: Group -> real, grantable: Option<real>,
                          cut: (nat, nat) -> seq<(nat, nat)>, placed: seq<Group>, shards: seq<(nat, nat)>,
                          arrays: seq<Submits.Array>, order: seq<nat>) {
    var held := Submits.AllHeld(Priced(pending, gb), grantable);
    && (forall k :: 0 <= k < |order| ==> order[k] < |pending|) && placed == Submits.AtEach(pending, order)
    && Submits.Manifest(held, Submits.Keys(held), order, shards, arrays)
    && Submits.AsBalanced(held, Priced(pending, seconds), Cuts(held, cut), order, shards, arrays)
    && forall n :: 0 <= n < |arrays| ==> Submits.Flagged(arrays[n], grantable)
  }

  lemma SomeIsOwed(pending: seq<Group>)
    requires pending != [] && AllNonEmpty(pending)
    ensures IdsIn(pending) != multiset{}
  {
    var last := pending[|pending| - 1];
    assert last in pending && last[0] in multiset(last);
  }

  method FirstRound(pending: seq<Group>, gb: Group -> real, seconds: Group -> real, grantable: Option<real>,
                    cut: (nat, nat) -> seq<(nat, nat)>)
    returns (placed: seq<Group>, shards: seq<(nat, nat)>, arrays: seq<Submits.Array>, ghost order: seq<nat>)
    requires pending != [] && AllNonEmpty(pending)
    requires (forall g :: seconds(g) > 0.0) && forall key, n :: Tiles(cut(key, n), n)
    ensures IdsIn(placed) == IdsIn(pending) && AllNonEmpty(placed) && placed != []
    ensures multiset(placed) == multiset(pending)
    ensures LaidOut(pending, gb, seconds, grantable, cut, placed, shards, arrays, order)
  {
    hide Submits.Keys, Submits.Members, Submits.Manifest, Submits.AtEach, Submits.MemoryBand, Submits.AllHeld, Tiles,
         IdsIn, Submits.AsBalanced, Submits.Flagged;
    var asks, estimates := Priced(pending, gb), Priced(pending, seconds);
    var held := Submits.AllHeld(asks, grantable);
    var cuts := Cuts(held, cut);
    placed, shards, arrays, order := Submits.SubmitRound(pending, asks, grantable, estimates, cuts);
    RearrangedIds(pending, placed);
    assert |multiset(placed)| == |multiset(pending)|;
  }

  /** Grouping by file and packing keep every id to run, in items none of them empty. */
  lemma PendingKeepsAll(todo: seq<Id>, files: seq<Group>, gb: Group -> real, seconds: Group -> real, budget: real,
                        spans: seq<(nat, nat)>, pending: seq<Group>)
    requires files == PerFile(todo, Files(todo))
    requires Packed(Banded(files, Banding(gb)), |files|, Banding(gb), seconds, budget, spans, pending)
    ensures IdsIn(pending) == multiset(todo) && AllNonEmpty(pending)
  {
    hide Packed, Banded, IdsIn, PerFile, Files;
    var banded := Banded(files, Banding(gb));
    PerFileKeepsAll(todo);
    PerFileIsNonEmpty(todo);
    BandedIsStable(files, Banding(gb), 0);
    SameFiles(files, banded);
    assert banded[..|files|] == banded;
    PackedKeepsAll(banded, |files|, Banding(gb), seconds, budget, spans, pending);
  }

  lemma SameFiles(files: seq<Group>, banded: seq<Group>)
    requires multiset(files) == multiset(banded) && AllNonEmpty(files)
    ensures AllNonEmpty(banded) && |banded| == |files|
  {
    assert |multiset(banded)| == |multiset(files)|;
    forall g | g in banded
      ensures g in files
    {
      assert g in multiset(banded);
    }
  }

  /** What a run starts with, id by id: a collection error is a rejected cell; a collected id keeps the cell an earlier
      run holds for it, unless its file broke or it went to another part; the other collected ids are to run. */
  lemma WhatARunStartsWith(ids: seq<Id>, errored: seq<Id>, handed: set<Id>, offered: Cells, items: seq<Group>,
                           ceiling: bool, id: Id)
    requires IdsIn(items) == multiset(Todo(ids, errored, handed, offered)) && AllNonEmpty(items)
    ensures var s := Begun(ids, errored, handed, offered, items, ceiling);
            var kept := id in offered && id in ids && id !in errored && id !in handed;
            && (id in s.cells <==> id in errored || kept)
            && (id in errored ==> s.cells[id] == Cell(Rejected, Ok))
            && (kept ==> s.cells[id] == offered[id])
            && IdsIn(Owed(s))[id] == (if id in handed || kept then 0 else multiset(ids)[id])
            && s.oomLost == map[]
            && if items == [] then s.phase.Recorded? && s.rounds == 0
               else s.phase == InFlight(items, ceiling) && s.rounds == 1
  {
    hide IdsIn, Unfinished;
    StartOwes(ids, errored, handed, offered, items, ceiling);
    UnfinishedCounts(ids, handed + Taken(ids, errored, handed, offered).Keys, id);
  }

  // ----- what a run covers

  /** Every collected id is either to run or already recorded, exactly when none of them also failed to collect. */
  lemma StartCoversExactly(ids: seq<Id>, errored: seq<Id>, handed: set<Id>, offered: Cells, items: seq<Group>,
                           ceiling: bool)
    requires Once(multiset(ids))
    requires IdsIn(items) == multiset(Todo(ids, errored, handed, offered)) && AllNonEmpty(items)
    ensures Covers(Begun(ids, errored, handed, offered, items, ceiling), multiset(Collected(ids, errored, handed)))
            <==> forall e :: e in errored && e in ids ==> e in handed
  {
    hide IdsIn, Unfinished;
    var s := Begun(ids, errored, handed, offered, items, ceiling);
    var owed := multiset(Todo(ids, errored, handed, offered));
    var whole := multiset(Collected(ids, errored, handed));
    StartOwes(ids, errored, handed, offered, items, ceiling);
    forall n
      ensures (owed + Celled(s.cells))[n] == whole[n] <==> !(n in errored && n in ids && n !in handed)
    {
      StartCounts(ids, errored, handed, offered, n);
    }
    if forall e :: e in errored && e in ids ==> e in handed {
      assert owed + Celled(s.cells) == whole;
    }
  }

  lemma StartOwes(ids: seq<Id>, errored: seq<Id>, handed: set<Id>, offered: Cells, items: seq<Group>, ceiling: bool)
    requires IdsIn(items) == multiset(Todo(ids, errored, handed, offered)) && AllNonEmpty(items)
    ensures var s := Begun(ids, errored, handed, offered, items, ceiling);
            && IdsIn(Owed(s)) == multiset(Todo(ids, errored, handed, offered)) && AllNonEmpty(Owed(s))
            && s.cells == Broken(errored) + Taken(ids, errored, handed, offered)
  {
    hide Unfinished;
    NoGroups();
  }

  lemma StartCounts(ids: seq<Id>, errored: seq<Id>, handed: set<Id>, offered: Cells, n: Id)
    requires Once(multiset(ids))
    ensures var cells := Broken(errored) + Taken(ids, errored, handed, offered);
            var owed := multiset(Todo(ids, errored, handed, offered));
            (owed + Celled(cells))[n] == multiset(Collected(ids, errored, handed))[n]
            <==> !(n in errored && n in ids && n !in handed)
  {
    hide Unfinished;
    UnfinishedCounts(ids, handed + Taken(ids, errored, handed, offered).Keys, n);
    assert n in multiset(ids) <==> n in ids;
  }

  /**
   THE RECORD COVERS WHAT WAS COLLECTED: whatever the cluster reports and however rounds are submitted, a run's written
   record has a cell for exactly the collection errors and the collected ids not handed to another part.
   */
  lemma RecordCoversCollected(ids: seq<Id>, errored: seq<Id>, handed: set<Id>, offered: Cells, items: seq<Group>,
                              ceiling: bool, calls: seq<Call>, stallMinutes: real)
    requires Once(multiset(ids)) && forall e :: e in errored && e in ids ==> e in handed
    requires IdsIn(items) == multiset(Todo(ids, errored, handed, offered)) && AllNonEmpty(items)
    requires AllPlanned(Begun(ids, errored, handed, offered, items, ceiling), calls, stallMinutes)
    ensures var end := Run(Begun(ids, errored, handed, offered, items, ceiling), calls, stallMinutes);
            end.phase.Recorded? ==> end.cells.Keys == Collected(ids, errored, handed)
  {
    hide Covers, Begun, Todo, Collected, IdsIn, AllPlanned, Run;
    var whole := Collected(ids, errored, handed);
    StartCoversExactly(ids, errored, handed, offered, items, ceiling);
    NoIdLostOrRepeated(Begun(ids, errored, handed, offered, items, ceiling), calls, multiset(whole), stallMinutes);
    var end := Run(Begun(ids, errored, handed, offered, items, ceiling), calls, stallMinutes);
    SameSet(end.cells.Keys, whole);
  }

  lemma {:induction false} PotentialIsAtMost(groups: seq<Group>)
    ensures Potential(groups, map[]) <= (OOM_ROUNDS + 1) * |IdsIn(groups)|
  {
    if groups != [] {
      PotentialIsAtMost(groups[..|groups| - 1]);
    }
  }

  /** THE ROUNDS OF A RUN ARE BOUNDED: however the cluster kills its tasks, they stay within RETRIES + 1 plus four for
      every id it has to run. */
  lemma RunIsBounded(ids: seq<Id>, errored: seq<Id>, handed: set<Id>, offered: Cells, items: seq<Group>, ceiling: bool,
                     calls: seq<Call>, stallMinutes: real)
    requires Once(multiset(ids)) && forall e :: e in errored && e in ids ==> e in handed
    requires IdsIn(items) == multiset(Todo(ids, errored, handed, offered)) && AllNonEmpty(items) && items != []
    requires AllPlanned(Begun(ids, errored, handed, offered, items, ceiling), calls, stallMinutes)
    ensures Run(Begun(ids, errored, handed, offered, items, ceiling), calls, stallMinutes).rounds
            <= RETRIES + 1 + (OOM_ROUNDS + 1) * |Todo(ids, errored, handed, offered)|
  {
    hide Covers, Todo, Collected, IdsIn, AllPlanned, Run, Within, Potential, Broken, Taken;
    var start, whole := Begun(ids, errored, handed, offered, items, ceiling), multiset(Collected(ids, errored, handed));
    StartCoversExactly(ids, errored, handed, offered, items, ceiling);
    FirstRoundIsWithin(start, whole);
    RoundsAreBounded(start, calls, Potential(items, map[]), whole, stallMinutes);
    PotentialIsAtMost(items);
  }

  lemma SameSet(a: set<Id>, b: set<Id>)
    ensures multiset(a) == multiset(b) ==> a == b
  {
    if multiset(a) == multiset(b) {
      forall x
        ensures x in a <==> x in b
      {
        assert x in multiset(a) <==> x in multiset(b);
      }
    }
  }
}
