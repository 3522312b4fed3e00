/** Running a graph, against any order in which running units finish, and what comes of it. */
module Executor {
  import opened Options
  import opened Graph
  import opened Execute
  import opened Agreement

  datatype Event = Started(hash: Hash) | Finished(hash: Hash)

  /** The hashes running after `events`. */
  function Open(events: seq<Event>): set<Hash> {
    if events == [] then {}
    else
      var before := Open(events[..|events| - 1]);
      match events[|events| - 1]
      case Started(h) => before + {h}
      case Finished(h) => before - {h}
  }

  /** No hash is started while it is running. */
  predicate NeverTwiceAtOnce(events: seq<Event>) {
    forall i :: 0 <= i < |events| && events[i].Started? ==> events[i].hash !in Open(events[..i])
  }

  lemma OneEventMore(events: seq<Event>, e: Event)
    requires NeverTwiceAtOnce(events) && (e.Started? ==> e.hash !in Open(events))
    ensures NeverTwiceAtOnce(events + [e])
    ensures Open(events + [e]) == if e.Started? then Open(events) + {e.hash} else Open(events) - {e.hash}
  {
    assert (events + [e])[..|events|] == events;
    forall i | 0 <= i < |events + [e]| && (events + [e])[i].Started?
      ensures (events + [e])[i].hash !in Open((events + [e])[..i])
    {
      if i < |events| { assert (events + [e])[..i] == events[..i]; }
    }
  }

  lemma SettledParts(units: Units, done: Done, waiting: seq<Name>, running: map<Hash, Name>, n: Name, s: Settled)
    requires Parted(units, done, waiting, running) && n in waiting
    ensures Parted(units, done[n := s], Without(waiting, n), running)
    ensures |Without(waiting, n)| == |waiting| - 1
  {
    hide Distinct, Names;
    WithoutIs(waiting, n);
    assert n in Members(waiting);
    assert done[n := s].Keys == done.Keys + {n};
  }

  lemma StartedParts(units: Units, done: Done, waiting: seq<Name>, running: map<Hash, Name>, n: Name, h: Hash)
    requires Parted(units, done, waiting, running) && n in waiting && h !in running
    ensures Parted(units, done, Without(waiting, n), running[h := n])
    ensures |Without(waiting, n)| == |waiting| - 1
  {
    hide Distinct;
    WithoutIs(waiting, n);
    assert n in Members(waiting);
    assert Names(running[h := n]) == Names(running) + {n} by {
      forall k | k in running ensures running[k] in Names(running[h := n]) { assert running[h := n][k] == running[k]; }
      assert running[h := n][h] == n;
    }
  }

  lemma NamesLess(running: map<Hash, Name>, h: Hash)
    requires h in running && forall k :: k in running && running[k] == running[h] ==> k == h
    ensures Names(running - {h}) == Names(running) - {running[h]}
  {
    forall x | x in Names(running) && x != running[h]
      ensures x in Names(running - {h})
    {
      var k :| k in running && running[k] == x;
      assert (running - {h})[k] == x;
    }
  }

  lemma FinishedParts(units: Units, done: Done, waiting: seq<Name>, running: map<Hash, Name>, start: Store, h: Hash,
                      s: Settled)
    requires Parted(units, done, waiting, running) && h in running && RunsRight(units, done, running, start)
    ensures Parted(units, done[running[h] := s], waiting, running - {h})
  {
    hide Distinct, HashOf, AllProduced, Upstream, Members;
    var n := running[h];
    assert n in Names(running);
    assert forall k :: k in running && running[k] == n ==> k == h;
    NamesLess(running, h);
    assert done[n := s].Keys == done.Keys + {n};
  }

  /** With nothing running, the first unit in the order that is not settled waits and is ready. */
  lemma SomeReady(units: Units, order: seq<Name>, done: Done, waiting: seq<Name>)
    requires Lists(units, order) && Parted(units, done, waiting, map[]) && waiting != []
    ensures exists n :: n in waiting && Upstream(units[n]) <= done.Keys
  {
    hide Upstream;
    assert waiting[0] in Members(waiting) && waiting[0] in Members(order);
    var k :| 0 <= k < |order| && order[k] == waiting[0];
    var i := FirstWaiting(order, done, k);
    assert order[i] in Members(order) && order[i] in Members(waiting);
    forall u | u in Upstream(units[order[i]])
      ensures u in done
    {
      assert u in Members(order[..i]);
    }
  }

  lemma {:induction false} FirstWaiting(order: seq<Name>, done: Done, k: nat) returns (i: nat)
    requires k < |order| && order[k] !in done
    ensures i <= k && order[i] !in done && forall j :: 0 <= j < i ==> order[j] in done
    decreases k
  {
    if j :| 0 <= j < k && order[j] !in done {
      i := FirstWaiting(order, done, j);
    } else {
      i := k;
    }
  }

  lemma NoneSettled(units: Units, world: World, at: Where, start: Store)
    ensures Sound(units, world, at, start, map[], map[], start)
  {
  }

  lemma AllWait(units: Units, order: seq<Name>)
    requires Lists(units, order)
    ensures Parted(units, map[], order, map[])
  {
  }

  lemma RunningIsApart(units: Units, world: World, at: Where, start: Store, done: Done, waiting: seq<Name>,
                       running: map<Hash, Name>, store: Store, h: Hash)
    requires Parted(units, done, waiting, running) && Sound(units, world, at, start, done, running, store) &&
             h in running
    ensures running[h] !in done && RunsRight(units, done, running, start) && |running - {h}| < |running|
  {
    hide Settles, Complete, RunsRight, Grew, RanOnce, Distinct, Members;
    assert running[h] in Names(running);
    assert (running - {h}).Keys == running.Keys - {h};
    assert |running.Keys| == |running.Keys - {h}| + 1;
  }

  lemma AllSettled(units: Units, done: Done, waiting: seq<Name>, running: map<Hash, Name>)
    requires Parted(units, done, waiting, running) && waiting == [] && running == map[]
    ensures done.Keys == units.Keys
  {
  }

  lemma WaitingAreUnits(units: Units, done: Done, waiting: seq<Name>, running: map<Hash, Name>)
    requires Parted(units, done, waiting, running)
    ensures Members(waiting) <= units.Keys && Distinct(waiting)
    ensures forall n :: n in waiting ==> n in units && n !in done
    ensures forall h :: h in running ==> running[h] in units
  {
    forall n | n in waiting
      ensures n in units && n !in done
    {
      assert n in Members(waiting);
    }
    forall h | h in running
      ensures running[h] in units
    {
      assert running[h] in Names(running);
    }
  }

  /** A unit whose upstream is settled: skipped, a cache hit, or to be run at its hash, nothing it reads missing. */
  datatype Early = Early(settled: Settled) | Placed(hash: Hash)

  function Decide(units: Units, done: Done, store: Store, n: Name): Early
    requires n in units
  {
    if !AllProduced(units[n], done) then Early.Early(Skipped)
    else
      var hash := HashOf(units[n], done);
      if hash in store then Early.Early(Cached(hash, store[hash])) else Placed(hash)
  }

  lemma DecideSettles(units: Units, world: World, at: Where, start: Store, done: Done, running: map<Hash, Name>,
                      store: Store, n: Name)
    requires Sound(units, world, at, start, done, running, store) && OneDeclaration(units) &&
             StoreComplete(units, start)
    requires Tracked(units, world, at, start, done, running, store)
    requires n in units && n !in done && Upstream(units[n]) <= done.Keys && Decide(units, done, store, n).Early?
    ensures Sound(units, world, at, start, done[n := Decide(units, done, store, n).settled], running, store)
    ensures Tracked(units, world, at, start, done[n := Decide(units, done, store, n).settled], running, store)
  {
    hide Settles, Complete, RunsRight, Grew, RanOnce, Upstream, AllProduced, HashOf, Tracked;
    var s := Decide(units, done, store, n).settled;
    if s.Cached? {
      WhatOf(units[n], done);
      StoredIsComplete(units, world, at, start, store, n, s.hash);
    }
    SoundMore(units, world, at, start, done, running, store, n, s);
    StartStays(units, world, at, start, store);
    EarlyTracks(units, world, at, start, done, running, store, n, s);
  }

  lemma StartStays(units: Units, world: World, at: Where, start: Store, store: Store)
    requires Grew(units, world, at, start, store)
    ensures forall h :: h in start ==> h in store && store[h] == start[h]
  {
  }

  lemma DecideRuns(units: Units, world: World, at: Where, start: Store, done: Done, running: map<Hash, Name>,
                   store: Store, n: Name)
    requires Sound(units, world, at, start, done, running, store) && Landed(units, world, at, running, store)
    requires EdgesDeclared(units) && n in units && Upstream(units[n]) <= done.Keys &&
             Decide(units, done, store, n).Placed?
    requires Decide(units, done, store, n).hash !in running && Tracked(units, world, at, start, done, running, store)
    ensures Readable(units[n], done)
    ensures var after := running[Decide(units, done, store, n).hash := n];
            && Sound(units, world, at, start, done, after, store) && Landed(units, world, at, after, store)
            && Tracked(units, world, at, start, done, after, store)
  {
    assert Complete(units, done) && Settles(units, done);
    hide Settles, Complete, RunsRight, Grew, RanOnce, Upstream, AllProduced, HashOf, Landed,
         Sound, Readable, EdgesDeclared, Tracked;
    NothingMissing(units, done, n);
    StartTracks(units, world, at, start, done, running, store, n, Decide(units, done, store, n).hash);
    StartKeeps(units, world, at, start, done, running, store, n, Decide(units, done, store, n).hash);
  }

  lemma LandsSound(units: Units, world: World, at: Where, start: Store, done: Done, waiting: seq<Name>,
                   running: map<Hash, Name>, store: Store, after: Store)
    requires Sound(units, world, at, start, done, running, store) && Landed(units, world, at, running, store)
    requires Tracked(units, world, at, start, done, running, store)
    requires forall h :: h in running ==> running[h] in units
    requires forall h :: h in store ==> h in after && after[h] == store[h]
    requires forall h :: h in after && h !in store ==>
                           h in running && Tried(units, world, at, running[h], h) == Ran(h, after[h])
    ensures Sound(units, world, at, start, done, running, after) && Landed(units, world, at, running, after)
    ensures Tracked(units, world, at, start, done, running, after)
  {
    assert RunsRight(units, done, running, start);
    hide Sound, Landed, Tried, Tracked, RunsRight;
    LandTracks(units, world, at, start, done, running, store, after);
    LandKeeps(units, world, at, start, done, running, store, after);
  }

  /** A ready unit still waits only while its hash is being run. */
  predicate HeldUp(units: Units, done: Done, running: map<Hash, Name>, n: Name) {
    && n in units && Upstream(units[n]) <= done.Keys && AllProduced(units[n], done)
    && HashOf(units[n], done) in running
  }

  lemma HeldUpStill(units: Units, done: Done, running: map<Hash, Name>, n: Name, m: Name, s: Settled)
    requires HeldUp(units, done, running, n) && m !in done
    ensures HeldUp(units, done[m := s], running, n)
  {
    hide AllProduced, HashOf, Upstream;
    Stays(units[n], done, m, s);
  }

  /** Every ready unit decided in turn: skipped, settled from the store, started, or left while its hash runs. */
  method DecideReady(units: Units, world: World, at: Where, start: Store, ghost order: seq<Name>, waiting0: seq<Name>,
                     done0: Done, running0: map<Hash, Name>, store0: Store, ghost events0: seq<Event>)
    returns (waiting: seq<Name>, done: Done, running: map<Hash, Name>, store: Store, ghost events: seq<Event>)
    requires EdgesDeclared(units) && Lists(units, order) && OneDeclaration(units) && StoreComplete(units, start)
    requires Parted(units, done0, waiting0, running0) && Sound(units, world, at, start, done0, running0, store0)
    requires Landed(units, world, at, running0, store0) && Tracked(units, world, at, start, done0, running0, store0)
    requires NeverTwiceAtOnce(events0) && Open(events0) == running0.Keys
    ensures Parted(units, done, waiting, running) && Sound(units, world, at, start, done, running, store)
    ensures Landed(units, world, at, running, store) && Tracked(units, world, at, start, done, running, store)
    ensures NeverTwiceAtOnce(events) && Open(events) == running.Keys
    ensures |waiting| <= |waiting0| && (|waiting| == |waiting0| ==> running == running0)
    ensures running0 == map[] && waiting0 != [] ==> |waiting| < |waiting0|
    ensures forall n :: n in waiting && n in units && Upstream(units[n]) <= done0.Keys ==>
                          HeldUp(units, done, running, n)
  {
    hide Sound, Parted, Landed, Lists, Open, NeverTwiceAtOnce, Decide, Upstream, Tried, EdgesDeclared, OneDeclaration,
         StoreComplete, Readable, ReadyAmong, Distinct, Tracked;
    waiting, done, running, store, events := waiting0, done0, running0, store0, events0;
    WaitingAreUnits(units, done, waiting, running);
    var ready := ReadyAmong(units, waiting, done.Keys);
    ReadyAmongAre(units, waiting, done.Keys);
    if running0 == map[] && waiting0 != [] { SomeReady(units, order, done, waiting); }
    for i := 0 to |ready|
      invariant Parted(units, done, waiting, running) && Sound(units, world, at, start, done, running, store)
      invariant Landed(units, world, at, running, store) && Tracked(units, world, at, start, done, running, store)
      invariant NeverTwiceAtOnce(events) && Open(events) == running.Keys
      invariant done0.Keys <= done.Keys
      invariant forall j :: i <= j < |ready| ==> ready[j] in waiting
      invariant |waiting| <= |waiting0| && (|waiting| == |waiting0| ==> running == running0)
      invariant i > 0 && running0 == map[] ==> |waiting| < |waiting0|
      invariant forall n :: n in waiting ==> n in waiting0
      invariant forall j :: 0 <= j < i && ready[j] in waiting ==> HeldUp(units, done, running, ready[j])
    {
      var n := ready[i];
      WaitingAreUnits(units, done, waiting, running);
      ghost var before := store;
      store := Land(units, world, at, running, store);
      LandsSound(units, world, at, start, done, waiting, running, before, store);
      assert n in ready && Upstream(units[n]) <= done.Keys;
      StillWaiting(ready, i, waiting, n);
      match Decide(units, done, store, n)
      case Early(settled) =>
        DecideSettles(units, world, at, start, done, running, store, n);
        forall m | HeldUp(units, done, running, m) { HeldUpStill(units, done, running, m, n, settled); }
        LeavesWaiting(waiting, n);
        SettledParts(units, done, waiting, running, n, settled);
        done, waiting := done[n := settled], Without(waiting, n);
      case Placed(hash) =>
        PlacedIsReady(units, done, store, n);
        if hash !in running {
          DecideRuns(units, world, at, start, done, running, store, n);
          StartedParts(units, done, waiting, running, n, hash);
          LeavesWaiting(waiting, n);
          OneEventMore(events, Started(hash));
          events := events + [Started(hash)];
          running, waiting := running[hash := n], Without(waiting, n);
        }
    }
  }

  lemma PlacedIsReady(units: Units, done: Done, store: Store, n: Name)
    requires n in units && Decide(units, done, store, n).Placed?
    ensures AllProduced(units[n], done) && HashOf(units[n], done) == Decide(units, done, store, n).hash
  {
  }

  lemma LeavesWaiting(waiting: seq<Name>, n: Name)
    requires Distinct(waiting)
    ensures forall m :: m in Without(waiting, n) <==> m in waiting && m != n
  {
    WithoutIs(waiting, n);
    assert forall m :: m in Without(waiting, n) <==> m in Members(Without(waiting, n));
    assert forall m :: m in waiting <==> m in Members(waiting);
  }

  lemma StillWaiting(ready: seq<Name>, i: nat, waiting: seq<Name>, n: Name)
    requires i < |ready| && Distinct(ready) && Distinct(waiting) && n == ready[i]
    requires forall j :: i <= j < |ready| ==> ready[j] in waiting
    ensures forall j :: i < j < |ready| ==> ready[j] in Without(waiting, n)
  {
    WithoutIs(waiting, n);
    forall j | i < j < |ready|
      ensures ready[j] in Without(waiting, n)
    {
      assert ready[j] in Members(waiting) - {n};
      assert ready[j] in Members(Without(waiting, n));
    }
  }

  lemma NothingStarted(units: Units, world: World, at: Where, start: Store)
    ensures Landed(units, world, at, map[], start) && NeverTwiceAtOnce([]) && Open([]) == {}
  {
  }

  /**
   THE RUN: whichever running unit finishes next and whenever results land, every unit is settled, a unit is skipped
   exactly when an upstream unit produced nothing and otherwise settled at the hash of what it read; no hash runs twice
   at once or twice to a result.
   */
  method Run(units: Units, world: World, at: Where, start: Store)
    returns (done: Done, store: Store, ghost events: seq<Event>)
    requires EdgesDeclared(units) && !HasCycle(units) && OneDeclaration(units) && StoreComplete(units, start)
    ensures done.Keys == units.Keys
    ensures Sound(units, world, at, start, done, map[], store)
    ensures Tracked(units, world, at, start, done, map[], store)
    ensures NeverTwiceAtOnce(events) && Open(events) == {}
  {
    hide Sound, Parted, Landed, Lists, HasCycle, Open, NeverTwiceAtOnce, RunsRight, Tried, EdgesDeclared,
         OneDeclaration, StoreComplete, Tracked;
    OrderExactly(units);
    OrderLists(units);
    var order := Order(units);
    var waiting: seq<Name>, running: map<Hash, Name> := order.value, map[];
    done, store, events := map[], start, [];
    NoneSettled(units, world, at, start);
    AllWait(units, waiting);
    NothingStarted(units, world, at, start);
    TrackedAtStart(units, world, at, start);
    while waiting != [] || running != map[]
      invariant Parted(units, done, waiting, running) && Sound(units, world, at, start, done, running, store)
      invariant Landed(units, world, at, running, store) && Tracked(units, world, at, start, done, running, store)
      invariant NeverTwiceAtOnce(events) && Open(events) == running.Keys
      decreases |waiting|, |running|
    {
      waiting, done, running, store, events :=
        DecideReady(units, world, at, start, order.value, waiting, done, running, store, events);
      if running != map[] {
        var hash :| hash in running;
        var n := running[hash];
        RunningIsApart(units, world, at, start, done, waiting, running, store, hash);
        FinishTracks(units, world, at, start, done, running, store, hash);
        FinishKeeps(units, world, at, start, done, running, store, hash);
        var outcome := Tried(units, world, at, n, hash);
        FinishedParts(units, done, waiting, running, start, hash, outcome);
        if outcome.Ran? { store := store[hash := outcome.result]; }
        OneEventMore(events, Finished(hash));
        events := events + [Finished(hash)];
        running := running - {hash};
        done := done[n := outcome];
      }
    }
    AllSettled(units, done, waiting, running);
  }

  // ----- the sequential run

  /** One unit after another in the graph's order. */
  function Evaluate(units: Units, world: World, at: Where, start: Store, order: seq<Name>): (Done, Store)
    requires forall i :: 0 <= i < |order| ==> order[i] in units
  {
    if order == [] then (map[], start)
    else
      var (done, store) := Evaluate(units, world, at, start, order[..|order| - 1]);
      var n := order[|order| - 1];
      match Decide(units, done, store, n)
      case Early(settled) => (done[n := settled], store)
      case Placed(hash) =>
        var outcome := Tried(units, world, at, n, hash);
        (done[n := outcome], if outcome.Ran? then store[hash := outcome.result] else store)
  }

  lemma {:induction false} EvaluateSound(units: Units, world: World, at: Where, start: Store, order: seq<Name>)
    requires EdgesDeclared(units) && OneDeclaration(units) && StoreComplete(units, start)
    requires Distinct(order) && AfterUpstream(units, order)
    ensures forall i :: 0 <= i < |order| ==> order[i] in units
    ensures var (done, store) := Evaluate(units, world, at, start, order);
            && Sound(units, world, at, start, done, map[], store) && done.Keys == Members(order)
            && Tracked(units, world, at, start, done, map[], store)
  {
    if order == [] {
      NoneSettled(units, world, at, start);
      TrackedAtStart(units, world, at, start);
      assert Members([]) == {};
    } else {
      hide Sound, Decide, Tried, EdgesDeclared, OneDeclaration, StoreComplete, Upstream, Distinct, AfterUpstream,
           Members, Evaluate, Tracked;
      EvaluateUnfolds(units, world, at, start, order);
      var front, n := order[..|order| - 1], order[|order| - 1];
      FrontIsOrdered(units, order);
      EvaluateSound(units, world, at, start, front);
      var (done, store) := Evaluate(units, world, at, start, front);
      EvaluateStep(units, world, at, start, done, store, n);
    }
  }

  lemma EvaluateNothing(units: Units, world: World, at: Where, start: Store)
    ensures Evaluate(units, world, at, start, []) == (map[], start)
  {
  }

  lemma EvaluateUnfolds(units: Units, world: World, at: Where, start: Store, order: seq<Name>)
    requires order != [] && forall i :: 0 <= i < |order| ==> order[i] in units
    ensures var (done, store) := Evaluate(units, world, at, start, order[..|order| - 1]);
            var n := order[|order| - 1];
            Evaluate(units, world, at, start, order) ==
            match Decide(units, done, store, n)
            case Early(settled) => (done[n := settled], store)
            case Placed(hash) =>
              var outcome := Tried(units, world, at, n, hash);
              (done[n := outcome], if outcome.Ran? then store[hash := outcome.result] else store)
  {
    hide Decide, Tried;
  }

  lemma FrontIsOrdered(units: Units, order: seq<Name>)
    requires order != [] && Distinct(order) && AfterUpstream(units, order)
    ensures var front, n := order[..|order| - 1], order[|order| - 1];
            && Distinct(front) && AfterUpstream(units, front) && n !in Members(front)
            && n in units && Upstream(units[n]) <= Members(front) && Members(order) == Members(front) + {n}
  {
    hide Upstream;
    var front := order[..|order| - 1];
    assert order == front + [order[|order| - 1]];
    forall i | 0 <= i < |front|
      ensures Upstream(units[front[i]]) <= Members(front[..i])
    {
      assert front[..i] == order[..i];
    }
  }

  lemma SoundRuns(units: Units, world: World, at: Where, start: Store, done: Done, n: Name, h: Hash, store: Store)
    requires Sound(units, world, at, start, done, map[][h := n], store)
    ensures RunsRight(units, done, map[][h := n], start)
  {
  }

  lemma EvaluateStep(units: Units, world: World, at: Where, start: Store, done: Done, store: Store, n: Name)
    requires EdgesDeclared(units) && OneDeclaration(units) && StoreComplete(units, start)
    requires Sound(units, world, at, start, done, map[], store) && Tracked(units, world, at, start, done, map[], store)
    requires n in units && n !in done && Upstream(units[n]) <= done.Keys
    ensures match Decide(units, done, store, n)
            case Early(settled) =>
              && Sound(units, world, at, start, done[n := settled], map[], store)
              && Tracked(units, world, at, start, done[n := settled], map[], store)
            case Placed(hash) =>
              var outcome := Tried(units, world, at, n, hash);
              var after := if outcome.Ran? then store[hash := outcome.result] else store;
              && Sound(units, world, at, start, done[n := outcome], map[], after)
              && Tracked(units, world, at, start, done[n := outcome], map[], after)
  {
    hide Sound, Decide, Tried, EdgesDeclared, OneDeclaration, StoreComplete, Upstream, Landed, Tracked;
    match Decide(units, done, store, n)
    case Early(settled) => DecideSettles(units, world, at, start, done, map[], store, n);
    case Placed(hash) =>
      NothingStarted(units, world, at, store);
      DecideRuns(units, world, at, start, done, map[], store, n);
      FinishKeeps(units, world, at, start, done, map[][hash := n], store, hash);
      SoundRuns(units, world, at, start, done, n, hash, store);
      FinishTracks(units, world, at, start, done, map[][hash := n], store, hash);
      assert map[][hash := n] - {hash} == map[];
  }

  // ----- the same outcome whatever the order

  /** The sequential run settles every unit as one of its answers, where its twins agree. */
  lemma {:induction false} EvaluateAnswers(units: Units, world: World, at: Where, start: Store, order: seq<Name>,
                                           ref: Done)
    requires EdgesDeclared(units) && OneDeclaration(units) && StoreComplete(units, start)
    requires Distinct(order) && AfterUpstream(units, order) && TwinsAgree(units, world, at, start, ref)
    requires forall i :: 0 <= i < |order| ==> order[i] in units
    requires PartOf(Evaluate(units, world, at, start, order).0, ref)
    ensures var (done, store) := Evaluate(units, world, at, start, order);
            Sourced(units, world, at, start, ref, done, store) && Answered(units, world, at, start, ref, done)
  {
    hide Sound, Decide, Tried, EdgesDeclared, OneDeclaration, StoreComplete, Upstream, Distinct, AfterUpstream, Members,
         Evaluate, TwinsAgree, PartOf, Tracked, Answered, Sourced;
    if order == [] {
      EvaluateNothing(units, world, at, start);
      NothingAnswered(units, world, at, start, ref);
    } else {
      var front, n := order[..|order| - 1], order[|order| - 1];
      EvaluateUnfolds(units, world, at, start, order);
      FrontIsOrdered(units, order);
      EvaluateSound(units, world, at, start, front);
      var (done, store) := Evaluate(units, world, at, start, front);
      LessIsPart(done, Evaluate(units, world, at, start, order).0, n, ref);
      EvaluateAnswers(units, world, at, start, front, ref);
      AnswersNext(units, world, at, start, ref, done, store, n);
    }
  }

  predicate PartOf(done: Done, ref: Done) {
    forall n :: n in done ==> n in ref && ref[n] == done[n]
  }

  lemma LessIsPart(done: Done, more: Done, n: Name, ref: Done)
    requires PartOf(more, ref) && n !in done && n in more && more == done[n := more[n]]
    ensures PartOf(done, ref)
  {
    assert forall m :: m in done ==> m in more && more[m] == done[m];
  }

  lemma NothingAnswered(units: Units, world: World, at: Where, start: Store, ref: Done)
    ensures Sourced(units, world, at, start, ref, map[], start) && Answered(units, world, at, start, ref, map[])
  {
  }

  lemma OneMoreAnswered(units: Units, world: World, at: Where, start: Store, ref: Done, done: Done, n: Name, s: Settled)
    requires Answered(units, world, at, start, ref, done) && n in units
    requires !s.Skipped? ==> Answers(units, world, at, start, ref, n, s)
    ensures Answered(units, world, at, start, ref, done[n := s])
  {
    hide Answers;
  }

  lemma AnswersNext(units: Units, world: World, at: Where, start: Store, ref: Done, done: Done, store: Store, n: Name)
    requires Sound(units, world, at, start, done, map[], store) && Tracked(units, world, at, start, done, map[], store)
    requires TwinsAgree(units, world, at, start, ref) && PartOf(done, ref)
    requires Sourced(units, world, at, start, ref, done, store) && Answered(units, world, at, start, ref, done)
    requires n in units && n !in done && Upstream(units[n]) <= done.Keys
    ensures match Decide(units, done, store, n)
            case Early(settled) =>
              && Sourced(units, world, at, start, ref, done[n := settled], store)
              && Answered(units, world, at, start, ref, done[n := settled])
            case Placed(hash) =>
              var outcome := Tried(units, world, at, n, hash);
              && Sourced(units, world, at, start, ref, done[n := outcome],
                         if outcome.Ran? then store[hash := outcome.result] else store)
              && Answered(units, world, at, start, ref, done[n := outcome])
  {
    assert Settles(units, done) && Stored(units, world, at, done, store) && Grew(units, world, at, start, store);
    assert Alike(done, ref);
    StartStays(units, world, at, start, store);
    hide Sound, Settles, Grew, Upstream, AllProduced, HashOf, Sourced, Stored, Answers, Answered, Tried, TwinsAgree,
         Alike, FirstAt, Tracked, PartOf;
    match Decide(units, done, store, n)
    case Early(settled) =>
      if settled.Cached? { CacheAnswers(units, world, at, start, ref, done, store, n, settled.hash); }
      MoreSettled(units, world, at, start, ref, done, store, n, settled);
      OneMoreAnswered(units, world, at, start, ref, done, n, settled);
    case Placed(hash) =>
      UnstoredIsFirst(units, world, at, ref, done, store, n, hash);
      FirstAnswers(units, world, at, start, ref, n, hash);
      RunAnswers(units, world, at, start, ref, done, store, n, hash);
  }

  lemma RunAnswers(units: Units, world: World, at: Where, start: Store, ref: Done, done: Done, store: Store, n: Name,
                   h: Hash)
    requires Sourced(units, world, at, start, ref, done, store) && Answered(units, world, at, start, ref, done)
    requires n in units && Upstream(units[n]) <= done.Keys && FirstAt(units, world, at, ref, n, h) && h !in start
    ensures var outcome := Tried(units, world, at, n, h);
            && Sourced(units, world, at, start, ref, done[n := outcome],
                       if outcome.Ran? then store[h := outcome.result] else store)
            && Answered(units, world, at, start, ref, done[n := outcome])
  {
    hide Upstream, Sourced, Answers, Answered, Tried, FirstAt;
    var outcome := Tried(units, world, at, n, h);
    FirstAnswers(units, world, at, start, ref, n, h);
    FinishSources(units, world, at, start, ref, done, store, n, h);
    MoreSettled(units, world, at, start, ref, done, if outcome.Ran? then store[h := outcome.result] else store, n,
                outcome);
    OneMoreAnswered(units, world, at, start, ref, done, n, outcome);
  }

  /** What the sequential run settles. */
  function Sequential(units: Units, world: World, at: Where, start: Store): Done
    requires EdgesDeclared(units) && !HasCycle(units)
  {
    OrderExactly(units);
    OrderLists(units);
    OrderedAreUnits(units, OrderOf(units).value);
    Evaluate(units, world, at, start, OrderOf(units).value).0
  }

  lemma SequentialIsFixed(units: Units, world: World, at: Where, start: Store)
    requires EdgesDeclared(units) && !HasCycle(units) && OneDeclaration(units) && StoreComplete(units, start)
    requires TwinsAgree(units, world, at, start, Sequential(units, world, at, start))
    ensures Fixed(units, world, at, start, Sequential(units, world, at, start))
  {
    hide HasCycle, EdgesDeclared, OneDeclaration, StoreComplete, Evaluate, Settles, Answered, TwinsAgree, Distinct,
         AfterUpstream, RunsRight, Grew, RanOnce, Complete, Tracked, Members;
    OrderExactly(units);
    OrderLists(units);
    var order := OrderOf(units).value;
    OrderedAreUnits(units, order);
    EvaluateSound(units, world, at, start, order);
    var ref := Evaluate(units, world, at, start, order).0;
    assert PartOf(ref, ref);
    EvaluateAnswers(units, world, at, start, order, ref);
  }

  /**
   EVERY COMPLETION ORDER AGREES WITH THE SEQUENTIAL RUN, a run and a cache hit told apart by nothing, where the units
   that meet at one hash in the sequential run agree on what they run to.
   */
  lemma AgreesWithSequential(units: Units, world: World, at: Where, start: Store, done: Done, store: Store)
    requires EdgesDeclared(units) && !HasCycle(units) && OneDeclaration(units) && StoreComplete(units, start)
    requires Tracked(units, world, at, start, done, map[], store) && done.Keys == units.Keys
    requires TwinsAgree(units, world, at, start, Sequential(units, world, at, start))
    ensures var sequential := Sequential(units, world, at, start);
            sequential.Keys == units.Keys && forall n :: n in units ==> Like(done[n], sequential[n])
  {
    hide HasCycle, EdgesDeclared, OneDeclaration, StoreComplete, Settles, Answered, Like, TwinsAgree, Sequential;
    SequentialIsFixed(units, world, at, start);
  }

  lemma OrderedAreUnits(units: Units, order: seq<Name>)
    requires Lists(units, order)
    ensures forall i :: 0 <= i < |order| ==> order[i] in units
  {
    forall i | 0 <= i < |order|
      ensures order[i] in units
    {
      assert order[i] in Members(order);
    }
  }

  // ----- which units are skipped

  lemma {:induction false} SkippedFrom(units: Units, done: Done, order: seq<Name>, k: nat) returns (m: Name)
    requires Lists(units, order) && k < |order| && Settles(units, done) && done.Keys == units.Keys
    requires order[k] in done && done[order[k]].Skipped?
    ensures m in done && !Produced(done[m]) && !done[m].Skipped? && Reaches(units, order[k], m)
    decreases k
  {
    hide Reaches, HashOf, Upstream;
    var n := order[k];
    assert SettledAt(units, done, n);
    var u :| u in Upstream(units[n]) && !Produced(done[u]);
    if done[u].Skipped? {
      assert u in Members(order[..k]);
      var i :| 0 <= i < k && order[i] == u;
      m := SkippedFrom(units, done, order, i);
    } else {
      m := u;
    }
    ReadsReach(units, n, u, m);
  }

  lemma {:induction false} LeadsSkips(units: Units, done: Done, path: seq<Name>, n: Name, m: Name)
    requires Settles(units, done) && done.Keys == units.Keys && Leads(units, path, n, m)
    requires m in done && !Produced(done[m])
    ensures n in done && done[n].Skipped?
    decreases |path|
  {
    hide HashOf, Upstream;
    assert path[1] in Upstream(units[n]);
    assert SettledAt(units, done, n);
    if |path| > 2 {
      assert Leads(units, path[1..], path[1], m);
      LeadsSkips(units, done, path[1..], path[1], m);
    }
  }

  /** A unit that produced nothing itself: it failed, was refused or was offered elsewhere. */
  predicate FellShort(s: Settled) {
    s.Failed? || s.Refused? || s.Offered?
  }

  /** THE SKIPPED UNITS ARE EXACTLY THE DEPENDANTS of units that failed, were refused or were offered elsewhere. */
  lemma SkippedExactly(units: Units, done: Done, n: Name)
    requires EdgesDeclared(units) && !HasCycle(units) && Settles(units, done) && done.Keys == units.Keys && n in units
    ensures done[n].Skipped? <==> exists m :: m in done && FellShort(done[m]) && Reaches(units, n, m)
  {
    hide HasCycle, Settles, EdgesDeclared;
    if done[n].Skipped? {
      OrderExactly(units);
      OrderLists(units);
      var order := OrderOf(units).value;
      assert n in Members(order);
      var k :| 0 <= k < |order| && order[k] == n;
      var m := SkippedFrom(units, done, order, k);
    } else if m :| m in done && FellShort(done[m]) && Reaches(units, n, m) {
      var path :| Leads(units, path, n, m);
      LeadsSkips(units, done, path, n, m);
    }
  }

  // ----- what comes of a unit

  /** The hash of a unit names what it computes and every content it reads. */
  predicate HashedByContent(unit: Unit, done: Done, hash: Hash)
    requires Readable(unit, done)
  {
    && hash.what == unit.what && hash.files.Keys == unit.inputs.Keys
    && forall k :: k in unit.inputs ==>
                     hash.files[k] == match unit.inputs[k]
                                      case File(content) => content
                                      case Read(u, output) => done[u].result[output]
  }

  /** A result from the store: as it was before the run, or run to in it by a unit that computes the same. */
  ghost predicate FromStore(units: Units, world: World, at: Where, start: Store, store: Store, s: Settled)
    requires s.Cached?
  {
    && s.hash in store && store[s.hash] == s.result
    && if s.hash in start then s.result == start[s.hash]
       else exists m :: m in units && units[m].what == s.hash.what
                        && Tried(units, world, at, m, s.hash) == Ran(s.hash, s.result)
  }

  /** What this box made of a unit: a result of exactly the outputs it declares, as its entry wrote them, where it could
      run here and they all were; failed where it ran and some was not; else offered where it may be, or refused. */
  predicate AsMet(unit: Unit, at: Where, met: Attempt, s: Settled) {
    var ranHere := at != Elsewhere && met.present && met.admitted;
    && (s.Ran? <==> ranHere && WroteAll(unit, met))
    && (s.Failed? <==> ranHere && !WroteAll(unit, met))
    && (s.Offered? <==> !ranHere && at != Here && met.offers && !unit.localOnly)
    && (s.Refused? <==> !ranHere && (at == Here || !met.offers || unit.localOnly))
    && (s.Ran? ==> s.result == map o | o in unit.outputs :: met.wrote.value[o])
  }

  /**
   WHAT COMES OF EACH UNIT of a run: skipped exactly when something it reads produced nothing; else settled at the hash
   of what it read, from the store or as what this box made of it, then stored when it is a result.
   */
  lemma WhatComesOfEach(units: Units, world: World, at: Where, start: Store, done: Done, store: Store, n: Name)
    requires EdgesDeclared(units) && n in units && n in done
    requires Sound(units, world, at, start, done, map[], store) && Tracked(units, world, at, start, done, map[], store)
    ensures Upstream(units[n]) <= done.Keys
    ensures done[n].Skipped? <==> exists u :: u in Upstream(units[n]) && (done[u].Skipped? || FellShort(done[u]))
    ensures !done[n].Skipped? ==> Readable(units[n], done) && HashedByContent(units[n], done, done[n].hash)
    ensures done[n].Cached? ==> FromStore(units, world, at, start, store, done[n])
    ensures !done[n].Skipped? && !done[n].Cached? ==> AsMet(units[n], at, world(n, done[n].hash), done[n])
    ensures done[n].Ran? ==> done[n].hash in store && store[done[n].hash] == done[n].result
  {
    assert Complete(units, done) && Settles(units, done) && Grew(units, world, at, start, store);
    assert SettledAt(units, done, n) && Stored(units, world, at, done, store);
    hide Sound, Tracked, Complete, Settles, Grew, EdgesDeclared, HashOf, Readable, HashedByContent, FromStore, AsMet,
         Tried;
    SettledKeys(units, done, n);
    if !done[n].Skipped? {
      NothingMissing(units, done, n);
      ContentHash(units[n], done);
      if done[n].Cached? { CachedFrom(units, world, at, start, store, done[n]); }
      else { TriedAsMet(units, world, at, n, done[n].hash); }
    }
  }

  lemma ContentHash(unit: Unit, done: Done)
    requires Readable(unit, done)
    ensures HashedByContent(unit, done, HashOf(unit, done))
  {
    hide HashOf;
    HashTells(unit, done);
  }

  lemma TriedAsMet(units: Units, world: World, at: Where, n: Name, h: Hash)
    requires n in units
    ensures AsMet(units[n], at, world(n, h), Tried(units, world, at, n, h))
  {
    hide Place;
    var s, met := Tried(units, world, at, n, h), world(n, h);
    if s.Ran? { assert s.result == map o | o in units[n].outputs :: met.wrote.value[o]; }
  }

  lemma SettledKeys(units: Units, done: Done, n: Name)
    requires Settles(units, done) && n in done
    ensures n in units && Upstream(units[n]) <= done.Keys
  {
  }

  lemma CachedFrom(units: Units, world: World, at: Where, start: Store, store: Store, s: Settled)
    requires Grew(units, world, at, start, store) && s.Cached? && s.hash in store && store[s.hash] == s.result
    ensures FromStore(units, world, at, start, store, s)
  {
    hide Tried;
  }

  // ----- one hash, two outcomes

  /** Two units of one computation, of whose demands this box admits only the second's. */
  function TwinUnits(): Units {
    map[0 := Unit("c", map["x" := File("")], {}, false), 1 := Unit("c", map["x" := File("")], {}, false)]
  }

  function TwinWorld(): World {
    (n: Name, h: Hash) => Attempt(true, n != 0, Some(map[]), false)
  }

  function TwinHash(): Hash {
    Hash("c", map["x" := ""])
  }

  lemma TwinsDiffer()
    ensures Tried(TwinUnits(), TwinWorld(), Here, 0, TwinHash()).Refused?
    ensures Tried(TwinUnits(), TwinWorld(), Here, 1, TwinHash()) == Ran(TwinHash(), map[])
    ensures forall done :: HashOf(TwinUnits()[0], done) == TwinHash() == HashOf(TwinUnits()[1], done)
  {
  }

  lemma TwinDecided(done: Done, store: Store, n: Name)
    requires n in TwinUnits()
    ensures Decide(TwinUnits(), done, store, n) ==
            if TwinHash() in store then Early.Early(Cached(TwinHash(), store[TwinHash()])) else Placed(TwinHash())
  {
    hide Tried;
    TwinsDiffer();
    assert Upstream(TwinUnits()[n]) == {};
  }

  /** A hash leaves out a unit's demand, so twins may meet two outcomes; then the order decides: evaluated first the
      larger one is refused, after its twin it is a cache hit, and both orders list every unit after all it reads. */
  lemma TwinsNeedOneOutcome()
    ensures !OneOutcome(TwinUnits(), TwinWorld(), Here)
    ensures AfterUpstream(TwinUnits(), [0, 1]) && AfterUpstream(TwinUnits(), [1, 0])
    ensures Evaluate(TwinUnits(), TwinWorld(), Here, map[], [0, 1]).0[0].Refused?
    ensures Produced(Evaluate(TwinUnits(), TwinWorld(), Here, map[], [1, 0]).0[0])
  {
    hide Tried, Decide, Evaluate, HashOf;
    var units, world := TwinUnits(), TwinWorld();
    TwinsDiffer();
    OneTwin(0, 1);
    OneTwin(1, 0);
  }

  lemma OneTwin(first: Name, second: Name)
    requires first in TwinUnits() && second in TwinUnits() && first != second
    ensures var outcome := Tried(TwinUnits(), TwinWorld(), Here, first, TwinHash());
            Evaluate(TwinUnits(), TwinWorld(), Here, map[], [first, second]).0 ==
            map[first := outcome, second := if outcome.Ran? then Cached(TwinHash(), outcome.result)
                                            else Tried(TwinUnits(), TwinWorld(), Here, second, TwinHash())]
  {
    hide Tried, Decide, HashOf, Evaluate;
    var units, world := TwinUnits(), TwinWorld();
    EvaluateUnfolds(units, world, Here, map[], [first, second]);
    EvaluateUnfolds(units, world, Here, map[], [first]);
    assert [first, second][..1] == [first] && [first][..0] == [];
    EvaluateNothing(units, world, Here, map[]);
    TwinDecided(map[], map[], first);
    var (done, store) := Evaluate(units, world, Here, map[], [first]);
    TwinDecided(done, store, second);
  }
}
