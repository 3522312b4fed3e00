/**
 Why completion orders agree: a hash is run by the first of its units to come, so a unit settles as itself or as a twin
 of its hash, and all orders agree where such twins would run to one outcome. `ref` is what some finished run settled.
 */
module Agreement {
  import opened Graph
  import opened Execute

  // ----- twins

  /** Unit `n` comes to hash `h` when its upstream settles as in `ref`. */
  predicate MeetsAt(units: Units, ref: Done, n: Name, h: Hash) {
    n in units && AllProduced(units[n], ref) && HashOf(units[n], ref) == h
  }

  /** No unit `n` reads, directly or through others, already runs to a result at this hash. */
  ghost predicate FirstAt(units: Units, world: World, at: Where, ref: Done, n: Name, h: Hash) {
    && MeetsAt(units, ref, n, h)
    && forall m :: m in units && Reaches(units, n, m) && MeetsAt(units, ref, m, h) ==>
                     !Tried(units, world, at, m, h).Ran?
  }

  /** Of units that meet at one hash not stored before the run, what the one runs to the other would, unless the one
      reads the other. */
  ghost predicate TwinsAgree(units: Units, world: World, at: Where, start: Store, ref: Done) {
    forall n, m, h: Hash ::
      h !in start && FirstAt(units, world, at, ref, n, h) && FirstAt(units, world, at, ref, m, h)
      && !Reaches(units, n, m) && Tried(units, world, at, n, h).Ran? ==>
        Tried(units, world, at, m, h) == Tried(units, world, at, n, h)
  }

  /** What one unit of a hash runs to, every unit of that hash would. */
  ghost predicate OneOutcome(units: Units, world: World, at: Where) {
    forall n, m, h: Hash :: n in units && m in units && units[n].what == h.what && units[m].what == h.what
                            && Tried(units, world, at, n, h).Ran? ==>
                              Tried(units, world, at, m, h) == Tried(units, world, at, n, h)
  }

  lemma OneOutcomeIsEnough(units: Units, world: World, at: Where, start: Store, ref: Done)
    requires OneOutcome(units, world, at)
    ensures TwinsAgree(units, world, at, start, ref)
  {
    hide Tried, Reaches, AllProduced;
  }

  // ----- what a unit may settle as

  /** The same outcome, a run and a cache hit told apart by nothing. */
  predicate Like(a: Settled, b: Settled) {
    a == b || (Produced(a) && Produced(b) && a.hash == b.hash && a.result == b.result)
  }

  /** A result stored before the run; else the unit's own outcome, or that of a twin that came first. */
  ghost predicate Answers(units: Units, world: World, at: Where, start: Store, ref: Done, n: Name, s: Settled)
    requires n in units && !s.Skipped?
  {
    var h := s.hash;
    if h in start then Like(s, Cached(h, start[h]))
    else if FirstAt(units, world, at, ref, n, h) then Like(s, Tried(units, world, at, n, h))
    else exists m :: m in units && FirstAt(units, world, at, ref, m, h) && Tried(units, world, at, m, h).Ran?
                     && Like(s, Tried(units, world, at, m, h))
  }

  ghost predicate Answered(units: Units, world: World, at: Where, start: Store, ref: Done, done: Done) {
    forall n :: n in done && n in units && !done[n].Skipped? ==> Answers(units, world, at, start, ref, n, done[n])
  }

  /** Where twins agree, a unit has one answer. */
  lemma AnswersOnce(units: Units, world: World, at: Where, start: Store, ref: Done, n: Name, s: Settled, r: Settled)
    requires TwinsAgree(units, world, at, start, ref) && n in units && !s.Skipped? && !r.Skipped? && s.hash == r.hash
    requires Answers(units, world, at, start, ref, n, s) && Answers(units, world, at, start, ref, n, r)
    ensures Like(s, r)
  {
    hide Tried, Reaches, AllProduced, HashOf, MeetsAt;
    var h := s.hash;
    if h !in start && !FirstAt(units, world, at, ref, n, h) {
      var m :| m in units && FirstAt(units, world, at, ref, m, h) && Tried(units, world, at, m, h).Ran?
               && Like(s, Tried(units, world, at, m, h));
      var k :| k in units && FirstAt(units, world, at, ref, k, h) && Tried(units, world, at, k, h).Ran?
               && Like(r, Tried(units, world, at, k, h));
      assert MeetsAt(units, ref, k, h);
      assert !Reaches(units, m, k);
    }
  }

  // ----- a run beside a finished one

  /** What settled is a result in the store, or the unit's own outcome, stored when it is a result. */
  ghost predicate Stored(units: Units, world: World, at: Where, done: Done, store: Store) {
    forall n :: n in done && n in units && !done[n].Skipped? ==>
                  && (Produced(done[n]) ==> done[n].hash in store && store[done[n].hash] == done[n].result)
                  && (!done[n].Cached? ==> done[n] == Tried(units, world, at, n, done[n].hash))
  }

  predicate Alike(done: Done, ref: Done) {
    forall n :: n in done ==> n in ref && Like(done[n], ref[n])
  }

  /** What the run added to the store is of units that came first at its hash, all they read settled. */
  ghost predicate Sourced(units: Units, world: World, at: Where, start: Store, ref: Done, done: Done, store: Store) {
    forall h :: h in store && h !in start ==>
                  exists m :: m in units && Upstream(units[m]) <= done.Keys && FirstAt(units, world, at, ref, m, h)
                              && Tried(units, world, at, m, h) == Ran(h, store[h])
  }

  ghost predicate RunsFirst(units: Units, world: World, at: Where, ref: Done, running: map<Hash, Name>) {
    forall h :: h in running ==> FirstAt(units, world, at, ref, running[h], h)
  }

  /** A finished run whose twins agree. */
  ghost predicate Fixed(units: Units, world: World, at: Where, start: Store, ref: Done) {
    && ref.Keys == units.Keys && Settles(units, ref)
    && Answered(units, world, at, start, ref, ref) && TwinsAgree(units, world, at, start, ref)
  }

  ghost predicate Tracks(units: Units, world: World, at: Where, start: Store, ref: Done, done: Done,
                         running: map<Hash, Name>, store: Store)
  {
    && Alike(done, ref) && Sourced(units, world, at, start, ref, done, store)
    && RunsFirst(units, world, at, ref, running)
  }

  /** The run so far agrees with every finished run whose twins agree. */
  ghost predicate Tracked(units: Units, world: World, at: Where, start: Store, done: Done, running: map<Hash, Name>,
                          store: Store)
  {
    && Stored(units, world, at, done, store)
    && forall ref :: Fixed(units, world, at, start, ref) ==> Tracks(units, world, at, start, ref, done, running, store)
  }

  // ----- one unit more

  lemma SameInputs(units: Units, one: Done, other: Done, n: Name)
    requires n in units && forall u :: u in Upstream(units[n]) ==> u in one && u in other && Like(one[u], other[u])
    ensures AllProduced(units[n], one) <==> AllProduced(units[n], other)
    ensures AllProduced(units[n], one) ==> HashOf(units[n], one) == HashOf(units[n], other)
  {
    forall k | k in units[n].inputs
      ensures Resolved(units[n].inputs[k], one) == Resolved(units[n].inputs[k], other)
    {
      if units[n].inputs[k].Read? { assert units[n].inputs[k].unit in Upstream(units[n]); }
    }
  }

  /** All a unit reads through others is settled when all it reads is. */
  lemma {:induction false} PathIsSettled(units: Units, done: Done, path: seq<Name>, n: Name, m: Name)
    requires Leads(units, path, n, m) && n in units && Upstream(units[n]) <= done.Keys
    requires forall k :: k in done ==> k in units && Upstream(units[k]) <= done.Keys
    ensures m in done
    decreases |path|
  {
    assert path[1] in Upstream(units[n]);
    if |path| > 2 {
      assert Leads(units, path[1..], path[1], m);
      PathIsSettled(units, done, path[1..], path[1], m);
    }
  }

  lemma ReachedIsSettled(units: Units, done: Done, n: Name, m: Name)
    requires n in units && Upstream(units[n]) <= done.Keys && Settles(units, done) && Reaches(units, n, m)
    ensures m in done
  {
    hide Upstream;
    var path :| Leads(units, path, n, m);
    PathIsSettled(units, done, path, n, m);
  }

  lemma AlikeInputs(units: Units, done: Done, ref: Done, n: Name)
    requires Alike(done, ref) && n in units && Upstream(units[n]) <= done.Keys
    ensures AllProduced(units[n], done) <==> AllProduced(units[n], ref)
    ensures AllProduced(units[n], done) ==> HashOf(units[n], done) == HashOf(units[n], ref)
  {
    hide AllProduced, HashOf, Upstream, Like;
    SameInputs(units, done, ref, n);
  }

  /** A unit whose hash is not stored comes first at it. */
  lemma UnstoredIsFirst(units: Units, world: World, at: Where, ref: Done, done: Done, store: Store, n: Name, h: Hash)
    requires Settles(units, done) && Alike(done, ref) && Stored(units, world, at, done, store)
    requires n in units && Upstream(units[n]) <= done.Keys && AllProduced(units[n], done) && HashOf(units[n], done) == h
    requires h !in store
    ensures FirstAt(units, world, at, ref, n, h)
  {
    hide AllProduced, HashOf, Upstream, Reaches, Tried, Alike;
    AlikeInputs(units, done, ref, n);
    forall m | m in units && Reaches(units, n, m) && MeetsAt(units, ref, m, h)
      ensures !Tried(units, world, at, m, h).Ran?
    {
      ReachedIsSettled(units, done, n, m);
      AlikeInputs(units, done, ref, m);
      assert SettledAt(units, done, m);
    }
  }

  /** A cache hit is an answer where twins agree. */
  lemma CacheAnswers(units: Units, world: World, at: Where, start: Store, ref: Done, done: Done, store: Store, n: Name,
                     h: Hash)
    requires TwinsAgree(units, world, at, start, ref) && Settles(units, done)
    requires Sourced(units, world, at, start, ref, done, store)
    requires n in units && n !in done && h in store && (h in start ==> store[h] == start[h])
    ensures Answers(units, world, at, start, ref, n, Cached(h, store[h]))
  {
    hide AllProduced, HashOf, Upstream, Reaches, Tried, Settles, MeetsAt;
    if h !in start {
      var m :| m in units && Upstream(units[m]) <= done.Keys && FirstAt(units, world, at, ref, m, h)
               && Tried(units, world, at, m, h) == Ran(h, store[h]);
      if Reaches(units, m, n) { ReachedIsSettled(units, done, m, n); }
      assert FirstAt(units, world, at, ref, n, h) ==> Tried(units, world, at, n, h) == Ran(h, store[h]);
    }
  }

  /** A unit settled as one of its answers settles as it did in a finished run. */
  lemma SettlesAlike(units: Units, world: World, at: Where, start: Store, ref: Done, done: Done, n: Name, s: Settled)
    requires Fixed(units, world, at, start, ref) && Alike(done, ref) && n in units && Upstream(units[n]) <= done.Keys
    requires if AllProduced(units[n], done) then !s.Skipped? && s.hash == HashOf(units[n], done) else s.Skipped?
    requires !s.Skipped? ==> Answers(units, world, at, start, ref, n, s)
    ensures Alike(done[n := s], ref)
  {
    hide AllProduced, HashOf, Upstream, Answers, TwinsAgree;
    AlikeInputs(units, done, ref, n);
    assert SettledAt(units, ref, n);
    if !s.Skipped? { AnswersOnce(units, world, at, start, ref, n, s, ref[n]); }
  }

  // ----- what every step keeps

  lemma TrackedAtStart(units: Units, world: World, at: Where, start: Store)
    ensures Tracked(units, world, at, start, map[], map[], start)
  {
  }

  lemma MoreSettled(units: Units, world: World, at: Where, start: Store, ref: Done, done: Done, store: Store, n: Name,
                    s: Settled)
    requires Sourced(units, world, at, start, ref, done, store)
    ensures Sourced(units, world, at, start, ref, done[n := s], store)
  {
    hide Upstream, Tried, FirstAt;
    forall h | h in store && h !in start
      ensures exists m :: m in units && Upstream(units[m]) <= done[n := s].Keys && FirstAt(units, world, at, ref, m, h)
                          && Tried(units, world, at, m, h) == Ran(h, store[h])
    {
      var m :| m in units && Upstream(units[m]) <= done.Keys && FirstAt(units, world, at, ref, m, h)
               && Tried(units, world, at, m, h) == Ran(h, store[h]);
      assert Upstream(units[m]) <= done[n := s].Keys;
    }
  }

  /** A unit skipped, or settled from the store. */
  lemma EarlyTracks(units: Units, world: World, at: Where, start: Store, done: Done, running: map<Hash, Name>,
                    store: Store, n: Name, s: Settled)
    requires Tracked(units, world, at, start, done, running, store) && Settles(units, done)
    requires forall h :: h in start ==> h in store && store[h] == start[h]
    requires n in units && n !in done && Upstream(units[n]) <= done.Keys
    requires if AllProduced(units[n], done) then s.Cached? && s.hash == HashOf(units[n], done) else s.Skipped?
    requires s.Cached? ==> s.hash in store && s.result == store[s.hash]
    ensures Tracked(units, world, at, start, done[n := s], running, store)
  {
    hide AllProduced, HashOf, Upstream, Tried, Settles, Alike, Sourced, RunsFirst, Answers, Fixed;
    forall ref | Fixed(units, world, at, start, ref)
      ensures Tracks(units, world, at, start, ref, done[n := s], running, store)
    {
      assert TwinsAgree(units, world, at, start, ref) by { FixedAgrees(units, world, at, start, ref); }
      if s.Cached? { CacheAnswers(units, world, at, start, ref, done, store, n, s.hash); }
      SettlesAlike(units, world, at, start, ref, done, n, s);
      MoreSettled(units, world, at, start, ref, done, store, n, s);
    }
  }

  lemma FixedAgrees(units: Units, world: World, at: Where, start: Store, ref: Done)
    requires Fixed(units, world, at, start, ref)
    ensures TwinsAgree(units, world, at, start, ref)
  {
  }

  lemma StartTracks(units: Units, world: World, at: Where, start: Store, done: Done, running: map<Hash, Name>,
                    store: Store, n: Name, h: Hash)
    requires Tracked(units, world, at, start, done, running, store) && Settles(units, done)
    requires n in units && Upstream(units[n]) <= done.Keys && AllProduced(units[n], done) && HashOf(units[n], done) == h
    requires h !in store
    ensures Tracked(units, world, at, start, done, running[h := n], store)
  {
    hide AllProduced, HashOf, Upstream, Tried, Settles, Alike, Sourced, FirstAt, Fixed, Stored;
    forall ref | Fixed(units, world, at, start, ref)
      ensures Tracks(units, world, at, start, ref, done, running[h := n], store)
    {
      UnstoredIsFirst(units, world, at, ref, done, store, n, h);
    }
  }

  /** Results of running units that landed in the store. */
  lemma LandTracks(units: Units, world: World, at: Where, start: Store, done: Done, running: map<Hash, Name>,
                   store: Store, after: Store)
    requires Tracked(units, world, at, start, done, running, store) && RunsRight(units, done, running, start)
    requires forall h :: h in store ==> h in after && after[h] == store[h]
    requires forall h :: h in after && h !in store ==>
                           h in running && running[h] in units
                           && Tried(units, world, at, running[h], h) == Ran(h, after[h])
    ensures Tracked(units, world, at, start, done, running, after)
  {
    hide AllProduced, HashOf, Upstream, Tried, Alike, FirstAt, Fixed;
    forall ref | Fixed(units, world, at, start, ref)
      ensures Tracks(units, world, at, start, ref, done, running, after)
    {
      forall h | h in after && h !in start
        ensures exists m :: m in units && Upstream(units[m]) <= done.Keys && FirstAt(units, world, at, ref, m, h)
                            && Tried(units, world, at, m, h) == Ran(h, after[h])
      {
        if h in store {
          var m :| m in units && Upstream(units[m]) <= done.Keys && FirstAt(units, world, at, ref, m, h)
                   && Tried(units, world, at, m, h) == Ran(h, store[h]);
        }
      }
    }
  }

  /** A running unit settled as its own outcome, a result stored with it. */
  lemma FinishTracks(units: Units, world: World, at: Where, start: Store, done: Done, running: map<Hash, Name>,
                     store: Store, h: Hash)
    requires Tracked(units, world, at, start, done, running, store) && RunsRight(units, done, running, start)
    requires Landed(units, world, at, running, store) && h in running && running[h] !in done
    ensures running[h] in units
    ensures var n := running[h];
            var outcome := Tried(units, world, at, n, h);
            var after := if outcome.Ran? then store[h := outcome.result] else store;
            Tracked(units, world, at, start, done[n := outcome], running - {h}, after)
  {
    assert h in store ==> Tried(units, world, at, running[h], h) == Ran(h, store[h]);
    hide AllProduced, HashOf, Upstream, Tried, Alike, FirstAt, Fixed, Sourced, Landed, Stored;
    var n := running[h];
    var outcome := Tried(units, world, at, n, h);
    var after := if outcome.Ran? then store[h := outcome.result] else store;
    FinishStored(units, world, at, done, store, n, h);
    forall ref | Fixed(units, world, at, start, ref)
      ensures Tracks(units, world, at, start, ref, done[n := outcome], running - {h}, after)
    {
      FinishTracksOne(units, world, at, start, ref, done, running, store, h);
    }
  }

  lemma FinishTracksOne(units: Units, world: World, at: Where, start: Store, ref: Done, done: Done,
                        running: map<Hash, Name>, store: Store, h: Hash)
    requires Fixed(units, world, at, start, ref) && Tracks(units, world, at, start, ref, done, running, store)
    requires RunsRight(units, done, running, start) && h in running
    ensures running[h] in units
    ensures var n := running[h];
            var outcome := Tried(units, world, at, n, h);
            var after := if outcome.Ran? then store[h := outcome.result] else store;
            Tracks(units, world, at, start, ref, done[n := outcome], running - {h}, after)
  {
    hide AllProduced, HashOf, Upstream, Tried, Alike, FirstAt, Fixed, Sourced;
    var n := running[h];
    var outcome := Tried(units, world, at, n, h);
    OutcomeSettles(units, world, at, n, h);
    FirstAnswers(units, world, at, start, ref, n, h);
    SettlesAlike(units, world, at, start, ref, done, n, outcome);
    FinishSources(units, world, at, start, ref, done, store, n, h);
    MoreSettled(units, world, at, start, ref, done, if outcome.Ran? then store[h := outcome.result] else store, n,
                outcome);
  }

  lemma FinishStored(units: Units, world: World, at: Where, done: Done, store: Store, n: Name, h: Hash)
    requires Stored(units, world, at, done, store) && n in units
    requires h in store ==> Tried(units, world, at, n, h) == Ran(h, store[h])
    ensures var outcome := Tried(units, world, at, n, h);
            Stored(units, world, at, done[n := outcome], if outcome.Ran? then store[h := outcome.result] else store)
  {
    hide Tried;
    OutcomeSettles(units, world, at, n, h);
  }

  lemma FirstAnswers(units: Units, world: World, at: Where, start: Store, ref: Done, n: Name, h: Hash)
    requires h !in start && FirstAt(units, world, at, ref, n, h)
    ensures n in units
    ensures var s := Tried(units, world, at, n, h);
            !s.Skipped? && s.hash == h && Answers(units, world, at, start, ref, n, s)
  {
    hide Reaches, AllProduced, HashOf, Place;
    OutcomeSettles(units, world, at, n, h);
  }

  lemma FinishSources(units: Units, world: World, at: Where, start: Store, ref: Done, done: Done, store: Store, n: Name,
                      h: Hash)
    requires Sourced(units, world, at, start, ref, done, store) && n in units && Upstream(units[n]) <= done.Keys
    requires FirstAt(units, world, at, ref, n, h)
    ensures var outcome := Tried(units, world, at, n, h);
            Sourced(units, world, at, start, ref, done,
                    if outcome.Ran? then store[h := outcome.result] else store)
  {
    hide Upstream, Tried, FirstAt;
    TriedIsAtHash(units, world, at, n, h);
  }
}
