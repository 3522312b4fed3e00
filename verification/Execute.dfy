/**
 The executor of a graph: every unit starts as soon as its upstream is decided, one hash runs once at a time, and a
 result is stored by what was computed. Whatever order the running units finish in, the outcome is the sequential one.
 */
module Execute {
  import opened Options
  import opened Graph

  /** A unit hash, by what it hashes: what is computed and the content of every file input. */
  datatype Hash = Hash(what: string, files: map<string, string>)

  /** A stored result: its outputs' contents. */
  type Result = map<string, string>
  type Store = map<Hash, Result>

  datatype Settled =
    | Cached(hash: Hash, result: Result) | Ran(hash: Hash, result: Result)
    | Failed(hash: Hash) | Offered(hash: Hash) | Refused(hash: Hash) | Skipped

  type Done = map<Name, Settled>

  predicate Produced(settled: Settled) {
    settled.Cached? || settled.Ran?
  }

  // ----- where a unit runs

  datatype Where = Here | Anywhere | Elsewhere
  datatype Action = RunHere | OfferIt | RefuseIt

  /** What a unit meets on this box: its engine present, its demand admitted, the files its entry wrote unless it
      raised, and whether there is anywhere to offer it. */
  datatype Attempt = Attempt(present: bool, admitted: bool, wrote: Option<Result>, offers: bool)

  type World = (Name, Hash) -> Attempt

  function Placement(at: Where, able: bool): Action {
    match at
    case Here => if able then RunHere else RefuseIt
    case Anywhere => if able then RunHere else OfferIt
    case Elsewhere => OfferIt
  }

  /** The entry finished, and every declared output is among the files it wrote. */
  predicate WroteAll(unit: Unit, attempt: Attempt) {
    attempt.wrote.Some? && forall o :: o in unit.outputs ==> o in attempt.wrote.value
  }

  /** Run here, offered or refused; a run that raises or leaves out a declared output has failed. */
  function Place(unit: Unit, hash: Hash, at: Where, attempt: Attempt): (s: Settled)
    ensures !s.Skipped? && !s.Cached? && s.hash == hash
    ensures s.Ran? <==> at != Elsewhere && attempt.present && attempt.admitted && WroteAll(unit, attempt)
    ensures s.Ran? ==> s.result.Keys == unit.outputs && forall o :: o in unit.outputs ==>
              s.result[o] == attempt.wrote.value[o]
    ensures s.Failed? <==> at != Elsewhere && attempt.present && attempt.admitted && !WroteAll(unit, attempt)
    ensures s.Offered? <==> !(at != Elsewhere && attempt.present && attempt.admitted) && at != Here && attempt.offers
                            && !unit.localOnly
  {
    var first := Placement(at, attempt.present);
    var action := if first == RunHere && !attempt.admitted then Placement(at, false) else first;
    match action
    case RunHere =>
      if attempt.wrote.None? || !(unit.outputs <= attempt.wrote.value.Keys) then Failed(hash)
      else Ran(hash, map o | o in unit.outputs :: attempt.wrote.value[o])
    case OfferIt => if attempt.offers && !unit.localOnly then Offered(hash) else Refused(hash)
    case RefuseIt => Refused(hash)
  }

  function Tried(units: Units, world: World, at: Where, n: Name, hash: Hash): Settled
    requires n in units
  {
    Place(units[n], hash, at, world(n, hash))
  }

  // ----- what a unit computes on

  function Resolved(source: Source, done: Done): string {
    match source
    case File(content) => content
    case Read(unit, output) =>
      if unit in done && Produced(done[unit]) && output in done[unit].result then done[unit].result[output] else ""
  }

  function HashOf(unit: Unit, done: Done): Hash {
    Hash(unit.what, map k | k in unit.inputs :: Resolved(unit.inputs[k], done))
  }

  predicate AllProduced(unit: Unit, done: Done) {
    forall u :: u in Upstream(unit) ==> u in done && Produced(done[u])
  }

  /** Every output a unit reads is there to be read. */
  predicate Readable(unit: Unit, done: Done) {
    forall k :: k in unit.inputs && unit.inputs[k].Read? ==>
                  var edge := unit.inputs[k];
                  edge.unit in done && Produced(done[edge.unit]) && edge.output in done[edge.unit].result
  }

  /** Units that compute the same declare the same outputs. */
  predicate OneDeclaration(units: Units) {
    forall n, m :: n in units && m in units && units[n].what == units[m].what ==> units[n].outputs == units[m].outputs
  }

  predicate StoreComplete(units: Units, store: Store) {
    forall n, h :: n in units && h in store && h.what == units[n].what ==> units[n].outputs <= store[h].Keys
  }

  predicate Complete(units: Units, done: Done) {
    forall n :: n in done && n in units && Produced(done[n]) ==> units[n].outputs <= done[n].result.Keys
  }

  /** A HASH TELLS WHAT A UNIT COMPUTES ON: what it computes, and under each of its inputs the content of that file or
      of the output it reads. */
  lemma HashTells(unit: Unit, done: Done)
    requires Readable(unit, done)
    ensures HashOf(unit, done).what == unit.what && HashOf(unit, done).files.Keys == unit.inputs.Keys
    ensures forall k :: k in unit.inputs ==>
                          HashOf(unit, done).files[k] ==
                          match unit.inputs[k]
                          case File(content) => content
                          case Read(u, output) => done[u].result[output]
  {
    assert forall k :: k in unit.inputs && unit.inputs[k].Read? ==> unit.inputs[k].unit in done;
  }

  /** So no file input is ever missing. */
  lemma NothingMissing(units: Units, done: Done, n: Name)
    requires EdgesDeclared(units) && Complete(units, done) && n in units && AllProduced(units[n], done)
    ensures Readable(units[n], done)
  {
    forall k | k in units[n].inputs && units[n].inputs[k].Read?
      ensures var edge := units[n].inputs[k];
              edge.unit in done && Produced(done[edge.unit]) && edge.output in done[edge.unit].result
    {
      assert units[n].inputs[k].unit in Upstream(units[n]);
    }
  }

  // ----- a settled unit, whatever was settled when

  /** Unit `n` is settled as its settled upstream says: skipped when one produced nothing, else at its own hash. */
  predicate SettledAt(units: Units, done: Done, n: Name)
    requires n in units && n in done
  {
    if AllProduced(units[n], done) then !done[n].Skipped? && done[n].hash == HashOf(units[n], done)
    else done[n].Skipped?
  }

  predicate Settles(units: Units, done: Done) {
    && done.Keys <= units.Keys
    && forall n :: n in done ==> Upstream(units[n]) <= done.Keys && SettledAt(units, done, n)
  }

  // ----- the state of a run

  function Names(running: map<Hash, Name>): set<Name> {
    set h | h in running :: running[h]
  }

  /** Every unit is settled, waiting or running. */
  predicate Parted(units: Units, done: Done, waiting: seq<Name>, running: map<Hash, Name>) {
    && Distinct(waiting) && done.Keys + Members(waiting) + Names(running) == units.Keys
    && done.Keys !! Members(waiting) && done.Keys !! Names(running) && Members(waiting) !! Names(running)
  }

  /** Every running unit runs at its own hash, nothing it reads missing, its result not there when the run began. */
  predicate RunsRight(units: Units, done: Done, running: map<Hash, Name>, start: Store) {
    forall h :: h in running ==>
                  && running[h] in units && Upstream(units[running[h]]) <= done.Keys
                  && AllProduced(units[running[h]], done) && h == HashOf(units[running[h]], done) && h !in start
  }

  /** The store holds what it held, and what units of this graph ran to. */
  predicate Grew(units: Units, world: World, at: Where, start: Store, store: Store) {
    && (forall h :: h in start ==> h in store && store[h] == start[h])
    && (forall h :: h in store && h !in start ==>
          exists n :: n in units && units[n].what == h.what && Tried(units, world, at, n, h) == Ran(h, store[h]))
  }

  /** No hash was run to a result twice, nor is one being run again. */
  predicate RanOnce(done: Done, running: map<Hash, Name>, store: Store) {
    && (forall n, m :: n in done && m in done && n != m && done[n].Ran? && done[m].Ran? ==>
      done[n].hash != done[m].hash)
    && (forall n :: n in done && done[n].Ran? ==> done[n].hash in store && done[n].hash !in running)
  }

  ghost predicate Sound(units: Units, world: World, at: Where, start: Store, done: Done, running: map<Hash, Name>,
                        store: Store)
  {
    && Settles(units, done) && Complete(units, done) && RunsRight(units, done, running, start)
    && Grew(units, world, at, start, store) && RanOnce(done, running, store)
  }

  // ----- what settling one more unit keeps

  lemma Stays(unit: Unit, done: Done, n: Name, s: Settled)
    requires Upstream(unit) <= done.Keys && n !in done
    ensures HashOf(unit, done[n := s]) == HashOf(unit, done)
    ensures AllProduced(unit, done[n := s]) <==> AllProduced(unit, done)
  {
    forall k | k in unit.inputs
      ensures Resolved(unit.inputs[k], done[n := s]) == Resolved(unit.inputs[k], done)
    {
      if unit.inputs[k].Read? { assert unit.inputs[k].unit in Upstream(unit); }
    }
  }

  lemma SettlesMore(units: Units, done: Done, n: Name, s: Settled)
    requires Settles(units, done) && n in units && n !in done && Upstream(units[n]) <= done.Keys
    requires if AllProduced(units[n], done) then !s.Skipped? && s.hash == HashOf(units[n], done) else s.Skipped?
    ensures Settles(units, done[n := s])
  {
    hide AllProduced, HashOf, Upstream;
    Stays(units[n], done, n, s);
    forall m | m in done
      ensures SettledAt(units, done[n := s], m)
    {
      Stays(units[m], done, n, s);
      assert SettledAt(units, done, m);
    }
  }

  lemma RunsRightStill(units: Units, done: Done, running: map<Hash, Name>, start: Store, n: Name, s: Settled)
    requires RunsRight(units, done, running, start) && n !in done
    ensures RunsRight(units, done[n := s], running, start)
  {
    hide AllProduced, HashOf, Upstream;
    forall h | h in running
      ensures h == HashOf(units[running[h]], done[n := s]) && AllProduced(units[running[h]], done[n := s])
    {
      Stays(units[running[h]], done, n, s);
    }
  }

  /** Settling a unit at its own hash, or skipping it, keeps everything when its result is stored and not run twice. */
  lemma SoundMore(units: Units, world: World, at: Where, start: Store, done: Done, running: map<Hash, Name>,
                  store: Store, n: Name, s: Settled)
    requires Sound(units, world, at, start, done, running, store)
    requires n in units && n !in done && Upstream(units[n]) <= done.Keys
    requires if AllProduced(units[n], done) then !s.Skipped? && s.hash == HashOf(units[n], done) else s.Skipped?
    requires Produced(s) ==> units[n].outputs <= s.result.Keys
    requires s.Ran? ==> s.hash in store && s.hash !in running
                        && forall m :: m in done && done[m].Ran? ==> done[m].hash != s.hash
    ensures Sound(units, world, at, start, done[n := s], running, store)
  {
    hide AllProduced, HashOf, Upstream, Settles, RunsRight, Grew;
    SettlesMore(units, done, n, s);
    RunsRightStill(units, done, running, start, n, s);
  }

  lemma StoredIsComplete(units: Units, world: World, at: Where, start: Store, store: Store, n: Name, h: Hash)
    requires OneDeclaration(units) && StoreComplete(units, start) && Grew(units, world, at, start, store)
    requires n in units && h in store && h.what == units[n].what
    ensures units[n].outputs <= store[h].Keys
  {
    if h !in start {
      var m :| m in units && units[m].what == h.what && Tried(units, world, at, m, h) == Ran(h, store[h]);
    }
  }

  // ----- the steps of a run

  /** What a running unit's hash already holds in the store is its own result. */
  predicate Landed(units: Units, world: World, at: Where, running: map<Hash, Name>, store: Store) {
    forall h :: h in running && h in store ==>
                  running[h] in units && Tried(units, world, at, running[h], h) == Ran(h, store[h])
  }

  /** Running units may have stored their results before the run takes notice: any of them, at any moment. */
  method Land(units: Units, world: World, at: Where, running: map<Hash, Name>, store: Store) returns (after: Store)
    requires forall h :: h in running ==> running[h] in units
    ensures forall h :: h in store ==> h in after && after[h] == store[h]
    ensures forall h :: h in after && h !in store ==>
                          h in running && Tried(units, world, at, running[h], h) == Ran(h, after[h])
  {
    var landed: set<Hash> :| landed <= running.Keys;
    after := store + map h | h in landed && h !in store && Tried(units, world, at, running[h], h).Ran? ::
               Tried(units, world, at, running[h], h).result;
  }

  lemma LandKeeps(units: Units, world: World, at: Where, start: Store, done: Done, running: map<Hash, Name>,
                  store: Store, after: Store)
    requires Sound(units, world, at, start, done, running, store) && Landed(units, world, at, running, store)
    requires forall h :: h in store ==> h in after && after[h] == store[h]
    requires forall h :: h in after && h !in store ==>
                           h in running && running[h] in units
                           && Tried(units, world, at, running[h], h) == Ran(h, after[h])
    ensures Sound(units, world, at, start, done, running, after) && Landed(units, world, at, running, after)
  {
    hide AllProduced, Upstream, Settles, Complete, Tried, RunsRight, Grew;
    GrewLands(units, world, at, start, done, running, store, after);
  }

  lemma GrewLands(units: Units, world: World, at: Where, start: Store, done: Done, running: map<Hash, Name>,
                  store: Store, after: Store)
    requires Grew(units, world, at, start, store) && RunsRight(units, done, running, start)
    requires forall h :: h in store ==> h in after && after[h] == store[h]
    requires forall h :: h in after && h !in store ==>
                           h in running && running[h] in units
                           && Tried(units, world, at, running[h], h) == Ran(h, after[h])
    ensures Grew(units, world, at, start, after)
  {
    hide AllProduced, Upstream, Tried;
    forall h | h in after && h !in start
      ensures exists n :: n in units && units[n].what == h.what && Tried(units, world, at, n, h) == Ran(h, after[h])
    {
      if h !in store {
        assert units[running[h]].what == h.what;
      } else {
        var n :| n in units && units[n].what == h.what && Tried(units, world, at, n, h) == Ran(h, store[h]);
      }
    }
  }

  lemma StartKeeps(units: Units, world: World, at: Where, start: Store, done: Done, running: map<Hash, Name>,
                   store: Store, n: Name, h: Hash)
    requires Sound(units, world, at, start, done, running, store) && Landed(units, world, at, running, store)
    requires n in units && Upstream(units[n]) <= done.Keys && AllProduced(units[n], done) && h == HashOf(units[n], done)
    requires h !in store && h !in running
    ensures Sound(units, world, at, start, done, running[h := n], store)
    ensures Landed(units, world, at, running[h := n], store)
  {
    hide AllProduced, Upstream, Settles, Complete, Tried, HashOf;
  }

  /** A running unit taken off the queue: its outcome settles it, a result stored with it. */
  lemma FinishKeeps(units: Units, world: World, at: Where, start: Store, done: Done, running: map<Hash, Name>,
                    store: Store, h: Hash)
    requires Sound(units, world, at, start, done, running, store) && Landed(units, world, at, running, store)
    requires h in running && running[h] !in done
    ensures running[h] in units
    ensures var n := running[h];
            var outcome := Tried(units, world, at, n, h);
            var after := if outcome.Ran? then store[h := outcome.result] else store;
            Sound(units, world, at, start, done[n := outcome], running - {h}, after)
            && Landed(units, world, at, running - {h}, after)
  {
    hide AllProduced, Upstream, Settles, HashOf, Tried, Grew, Complete, Landed;
    var n := running[h];
    var outcome := Tried(units, world, at, n, h);
    var after := if outcome.Ran? then store[h := outcome.result] else store;
    assert units[n].what == h.what by { WhatOf(units[n], done); }
    GrewMore(units, world, at, start, store, n, h);
    RunsOneLess(units, world, at, start, done, running, store, h, after);
    OutcomeSettles(units, world, at, n, h);
    SoundMore(units, world, at, start, done, running - {h}, after, n, outcome);
  }

  lemma OutcomeSettles(units: Units, world: World, at: Where, n: Name, h: Hash)
    requires n in units
    ensures var outcome := Tried(units, world, at, n, h);
            !outcome.Skipped? && outcome.hash == h && (Produced(outcome) ==> units[n].outputs <= outcome.result.Keys)
    ensures Produced(Tried(units, world, at, n, h)) <==> Tried(units, world, at, n, h).Ran?
  {
  }

  lemma RunsOneLess(units: Units, world: World, at: Where, start: Store, done: Done, running: map<Hash, Name>,
                    store: Store, h: Hash, after: Store)
    requires RunsRight(units, done, running, start) && RanOnce(done, running, store)
    requires Landed(units, world, at, running, store)
    requires forall k :: k in store ==> k in after
    requires forall k :: k in after && k != h ==> k in store && after[k] == store[k]
    ensures RunsRight(units, done, running - {h}, start) && RanOnce(done, running - {h}, after)
    ensures Landed(units, world, at, running - {h}, after)
  {
    hide AllProduced, Upstream, Tried, HashOf;
  }

  lemma WhatOf(unit: Unit, done: Done)
    ensures HashOf(unit, done).what == unit.what
  {
  }

  lemma GrewMore(units: Units, world: World, at: Where, start: Store, store: Store, n: Name, h: Hash)
    requires Grew(units, world, at, start, store) && n in units && h.what == units[n].what && h !in start
    ensures var outcome := Tried(units, world, at, n, h);
            Grew(units, world, at, start, if outcome.Ran? then store[h := outcome.result] else store)
  {
    hide Tried;
    TriedIsAtHash(units, world, at, n, h);
  }

  lemma TriedIsAtHash(units: Units, world: World, at: Where, n: Name, h: Hash)
    requires n in units
    ensures var s := Tried(units, world, at, n, h); s.Ran? ==> s == Ran(h, s.result)
  {
  }

  // ----- which units are ready

  function ReadyAmong(units: Units, waiting: seq<Name>, done: set<Name>): seq<Name>
    requires Members(waiting) <= units.Keys
  {
    if waiting == [] then []
    else
      var front, last := waiting[..|waiting| - 1], waiting[|waiting| - 1];
      assert last in Members(waiting) && Members(front) <= Members(waiting);
      ReadyAmong(units, front, done) + if Upstream(units[last]) <= done then [last] else []
  }

  lemma {:induction false} ReadyAmongAre(units: Units, waiting: seq<Name>, done: set<Name>)
    requires Members(waiting) <= units.Keys && Distinct(waiting)
    ensures var ready := ReadyAmong(units, waiting, done);
            && Distinct(ready)
            && forall n :: n in ready <==> n in waiting && Upstream(units[n]) <= done
  {
    if waiting != [] {
      var front, last := waiting[..|waiting| - 1], waiting[|waiting| - 1];
      assert waiting == front + [last];
      assert Members(front) <= Members(waiting);
      ReadyAmongAre(units, front, done);
      assert last !in front;
    }
  }

  function Without(names: seq<Name>, name: Name): seq<Name> {
    if names == [] then []
    else Without(names[..|names| - 1], name) + if names[|names| - 1] == name then [] else [names[|names| - 1]]
  }

  lemma {:induction false} WithoutIs(names: seq<Name>, name: Name)
    requires Distinct(names)
    ensures Distinct(Without(names, name)) && Members(Without(names, name)) == Members(names) - {name}
    ensures |Without(names, name)| == if name in names then |names| - 1 else |names|
  {
    if names != [] {
      var front, last := names[..|names| - 1], names[|names| - 1];
      assert names == front + [last] && last !in front;
      WithoutIs(front, name);
      assert Members(names) == Members(front) + {last};
      var rest := Without(front, name);
      assert Members(rest + [last]) == Members(rest) + {last};
      assert last !in Members(rest);
    }
  }
}
