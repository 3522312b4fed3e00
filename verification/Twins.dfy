/**
 Units of one hash: when one of them runs to a result the other does not, the order in which they come decides what the
 other settles as, so the agreement of all orders needs their outcomes to agree.
 */
module Twins {
  import opened Graph
  import opened Execute
  import opened Agreement
  import opened Executor

  /** The units that `n` or `m` reads, directly or through others. */
  ghost function Above(units: Units, n: Name, m: Name): set<Name> {
    set u | u in units && (Reaches(units, n, u) || Reaches(units, m, u))
  }

  /** The names of `among`, in their order. */
  ghost function Among(names: seq<Name>, among: set<Name>): seq<Name> {
    if names == [] then []
    else Among(names[..|names| - 1], among) + if names[|names| - 1] in among then [names[|names| - 1]] else []
  }

  // ----- what reads what

  lemma ReachesOn(units: Units, n: Name, u: Name, v: Name)
    requires Reaches(units, n, u) && u in units && v in Upstream(units[u])
    ensures Reaches(units, n, v)
  {
    var path :| Leads(units, path, n, u);
    var longer := path + [v];
    forall i | 0 <= i < |longer| - 1
      ensures longer[i] in units && longer[i + 1] in Upstream(units[longer[i]])
    {
      if i < |path| - 1 { assert path[i + 1] in Upstream(units[path[i]]); }
    }
    assert Leads(units, longer, n, v);
  }

  lemma NotAboveItself(units: Units, n: Name)
    requires EdgesDeclared(units) && !HasCycle(units) && n in units
    ensures !Reaches(units, n, n)
  {
    if Reaches(units, n, n) {
      var path :| Leads(units, path, n, n);
      assert IsCycle(units, path);
    }
  }

  /** What twins read lies above them, reads only what lies above them, and holds neither. */
  lemma AboveIsClosed(units: Units, n: Name, m: Name)
    requires EdgesDeclared(units) && !HasCycle(units) && n in units && m in units
    requires !Reaches(units, n, m) && !Reaches(units, m, n)
    ensures var above := Above(units, n, m);
            && n !in above && m !in above && Upstream(units[n]) <= above && Upstream(units[m]) <= above
            && forall u :: u in above ==> u in units && Upstream(units[u]) <= above
  {
    hide Reaches, HasCycle, EdgesDeclared;
    NotAboveItself(units, n);
    NotAboveItself(units, m);
    forall u, v | u in units && v in Upstream(units[u]) && (u == n || u == m || u in Above(units, n, m))
      ensures v in Above(units, n, m)
    {
      UpstreamIsDeclared(units, u, v);
      if u == n || u == m { ReadsReach(units, u, v, v); }
      else if Reaches(units, n, u) { ReachesOn(units, n, u, v); }
      else { ReachesOn(units, m, u, v); }
    }
  }

  lemma UpstreamIsDeclared(units: Units, u: Name, v: Name)
    requires EdgesDeclared(units) && u in units && v in Upstream(units[u])
    ensures v in units
  {
  }

  // ----- orders made of an order

  lemma OneMoreAfter(units: Units, names: seq<Name>, n: Name)
    requires AfterUpstream(units, names) && n in units && Upstream(units[n]) <= Members(names)
    ensures AfterUpstream(units, names + [n])
  {
    hide Upstream;
    forall i | 0 <= i < |names + [n]|
      ensures (names + [n])[i] in units && Upstream(units[(names + [n])[i]]) <= Members((names + [n])[..i])
    {
      assert (names + [n])[..i] == names[..i];
    }
    assert names[..|names|] == names;
  }

  lemma OneMoreDistinct(names: seq<Name>, n: Name)
    requires Distinct(names) && n !in Members(names)
    ensures Distinct(names + [n]) && Members(names + [n]) == Members(names) + {n}
  {
    forall i | 0 <= i < |names|
      ensures names[i] != n
    {
      assert names[i] in Members(names);
    }
  }

  /** The names of `among` may follow `front` in their order, where all they read is among them or in front. */
  lemma {:induction false} AmongMayFollow(units: Units, front: seq<Name>, order: seq<Name>, among: set<Name>)
    requires Distinct(order) && AfterUpstream(units, order) && Distinct(front) && AfterUpstream(units, front)
    requires Members(front) !! among
    requires forall u :: u in among && u in units ==> Upstream(units[u]) <= Members(front) + among
    ensures var all := front + Among(order, among);
            Distinct(all) && AfterUpstream(units, all) && Members(all) == Members(front) + Members(order) * among
  {
    hide Upstream, Distinct, AfterUpstream, Members, Among;
    AmongUnfolds(order, among);
    if order == [] {
      NothingAfter(units);
      assert front + [] == front;
    } else {
      var before, last := order[..|order| - 1], order[|order| - 1];
      FrontIsOrdered(units, order);
      AmongMayFollow(units, front, before, among);
      var all := front + Among(before, among);
      SetsMeet(Members(front), Members(before), among, last);
      if last in among {
        OneMoreAfter(units, all, last);
        OneMoreDistinct(all, last);
        assert front + Among(order, among) == all + [last];
      } else {
        assert front + Among(order, among) == all;
      }
    }
  }

  lemma AmongUnfolds(order: seq<Name>, among: set<Name>)
    ensures order == [] ==> Among(order, among) == []
    ensures order != [] ==>
              var before, last := order[..|order| - 1], order[|order| - 1];
              Among(order, among) == if last in among then Among(before, among) + [last] else Among(before, among)
  {
  }

  lemma SetsMeet(front: set<Name>, before: set<Name>, among: set<Name>, last: Name)
    requires front !! among && last !in before
    ensures last in among ==> last !in front + before * among
    ensures front + (before + {last}) * among == front + before * among + (if last in among then {last} else {})
    ensures forall up: set<Name> :: up <= before && up <= front + among ==> up <= front + before * among
  {
  }

  // ----- evaluating on

  /** Evaluating further units leaves what is settled settled. */
  lemma {:induction false} EvaluateKeeps(units: Units, world: World, at: Where, start: Store, order: seq<Name>,
                                         rest: seq<Name>, n: Name)
    requires forall i :: 0 <= i < |order + rest| ==> (order + rest)[i] in units
    requires Distinct(order + rest) && n in Members(order)
    ensures forall i :: 0 <= i < |order| ==> order[i] in units
    ensures n in Evaluate(units, world, at, start, order).0
    ensures n in Evaluate(units, world, at, start, order + rest).0
    ensures Evaluate(units, world, at, start, order + rest).0[n] == Evaluate(units, world, at, start, order).0[n]
    decreases |rest|
  {
    hide Decide, Tried, Evaluate;
    forall i | 0 <= i < |order|
      ensures order[i] in units
    {
      assert (order + rest)[i] == order[i];
    }
    EvaluateNames(units, world, at, start, order);
    if rest == [] {
      assert order + rest == order;
    } else {
      var all := order + rest;
      var front := rest[..|rest| - 1];
      assert all[..|all| - 1] == order + front;
      EvaluateKeeps(units, world, at, start, order, front, n);
      EvaluateUnfolds(units, world, at, start, all);
      var k :| 0 <= k < |order| && order[k] == n;
      assert all[k] == n && all[|all| - 1] != n;
    }
  }

  lemma {:induction false} EvaluateNames(units: Units, world: World, at: Where, start: Store, order: seq<Name>)
    requires forall i :: 0 <= i < |order| ==> order[i] in units
    ensures Evaluate(units, world, at, start, order).0.Keys == Members(order)
  {
    hide Decide, Tried, Evaluate;
    if order == [] {
      EvaluateNothing(units, world, at, start);
    } else {
      EvaluateNames(units, world, at, start, order[..|order| - 1]);
      EvaluateUnfolds(units, world, at, start, order);
      assert Members(order) == Members(order[..|order| - 1]) + {order[|order| - 1]};
    }
  }

  // ----- twins

  /** Both units' upstream produced what they read, both have one hash, and its result is not stored. */
  predicate AtOneHash(units: Units, done: Done, store: Store, n: Name, m: Name)
    requires n in units && m in units
  {
    && AllProduced(units[n], done) && AllProduced(units[m], done)
    && HashOf(units[n], done) == HashOf(units[m], done) && HashOf(units[n], done) !in store
  }

  lemma TwoMore(units: Units, world: World, at: Where, start: Store, base: seq<Name>, first: Name, second: Name)
    requires forall i :: 0 <= i < |base| ==> base[i] in units
    requires first in units && second in units && first != second
    requires first !in Members(base) && second !in Members(base)
    requires Upstream(units[first]) <= Members(base) && Upstream(units[second]) <= Members(base)
    requires var (done, store) := Evaluate(units, world, at, start, base); AtOneHash(units, done, store, first, second)
    ensures var h := HashOf(units[first], Evaluate(units, world, at, start, base).0);
            var outcome := Tried(units, world, at, first, h);
            var after := Evaluate(units, world, at, start, base + [first, second]).0;
            && first in after && after[first] == outcome && second in after
            && after[second] == if outcome.Ran? then Cached(h, outcome.result) else Tried(units, world, at, second, h)
  {
    hide Tried, Evaluate, Upstream, AllProduced, HashOf;
    var (done, store) := Evaluate(units, world, at, start, base);
    var all := base + [first, second];
    assert all[..|all| - 1] == base + [first] && (base + [first])[..|base|] == base;
    EvaluateNames(units, world, at, start, base);
    EvaluateUnfolds(units, world, at, start, base + [first]);
    EvaluateUnfolds(units, world, at, start, all);
    var outcome := Tried(units, world, at, first, HashOf(units[first], done));
    Stays(units[second], done, first, outcome);
    TriedIsAtHash(units, world, at, first, HashOf(units[first], done));
  }

  /** A valid order that starts with what the twins read, then has the one, then the other. */
  ghost function TwinOrder(units: Units, order: seq<Name>, n: Name, m: Name, first: Name, second: Name): seq<Name> {
    var above := Above(units, n, m);
    Among(order, above) + [first, second] + Among(order, units.Keys - above - {n, m})
  }

  lemma TwinOrderLists(units: Units, order: seq<Name>, n: Name, m: Name, first: Name, second: Name)
    requires EdgesDeclared(units) && !HasCycle(units) && Lists(units, order) && n in units && m in units && n != m
    requires !Reaches(units, n, m) && !Reaches(units, m, n)
    requires (first == n && second == m) || (first == m && second == n)
    ensures Lists(units, TwinOrder(units, order, n, m, first, second))
    ensures Members(Among(order, Above(units, n, m))) == Above(units, n, m)
  {
    hide Upstream, HasCycle, EdgesDeclared, Reaches, Above, AfterUpstream, Distinct, Members, Among;
    var above := Above(units, n, m);
    var rest := units.Keys - above - {n, m};
    TwinsMayFollow(units, order, n, m, first, second);
    RestIsClosed(units, rest, above + {n, m});
    AmongMayFollow(units, Among(order, above) + [first, second], order, rest);
  }

  lemma TwinsMayFollow(units: Units, order: seq<Name>, n: Name, m: Name, first: Name, second: Name)
    requires EdgesDeclared(units) && !HasCycle(units) && Lists(units, order) && n in units && m in units && n != m
    requires !Reaches(units, n, m) && !Reaches(units, m, n)
    requires (first == n && second == m) || (first == m && second == n)
    ensures var base, above := Among(order, Above(units, n, m)), Above(units, n, m);
            && Members(base) == above <= units.Keys
            && Distinct(base + [first, second]) && AfterUpstream(units, base + [first, second])
            && Members(base + [first, second]) == above + {n, m}
  {
    hide Upstream, HasCycle, EdgesDeclared, Reaches, Above, AfterUpstream, Distinct, Members, Among;
    var above := Above(units, n, m);
    AboveIsClosed(units, n, m);
    NothingAfter(units);
    AmongMayFollow(units, [], order, above);
    var base := Among(order, above);
    assert [] + base == base;
    OneMoreAfter(units, base, first);
    OneMoreDistinct(base, first);
    OneMoreAfter(units, base + [first], second);
    OneMoreDistinct(base + [first], second);
    assert base + [first] + [second] == base + [first, second];
  }

  lemma RestIsClosed(units: Units, rest: set<Name>, others: set<Name>)
    requires EdgesDeclared(units) && rest == units.Keys - others
    ensures forall u :: u in rest ==> Upstream(units[u]) <= others + rest
  {
    hide Upstream, EdgesDeclared;
    forall u, v | u in rest && v in Upstream(units[u])
      ensures v in others + rest
    {
      UpstreamIsDeclared(units, u, v);
    }
  }

  lemma NothingAfter(units: Units)
    ensures Distinct([]) && AfterUpstream(units, []) && Members([]) == {}
  {
  }

  /**
   TWINS WHOSE OUTCOMES DIFFER ARE SETTLED BY THE ORDER: of two units of one hash, neither reading the other, the first
   runs to a result the second would not give. Where their hash is not already stored when all they read is settled,
   there are two valid orders in which the second settles differently: a cache hit after its twin, its own outcome
   before it.
   */
  lemma TwinsSettleDifferently(units: Units, world: World, at: Where, start: Store, order: seq<Name>, n: Name, m: Name)
    requires EdgesDeclared(units) && !HasCycle(units) && Lists(units, order) && n in units && m in units && n != m
    requires !Reaches(units, n, m) && !Reaches(units, m, n)
    requires forall i :: 0 <= i < |Among(order, Above(units, n, m))| ==> Among(order, Above(units, n, m))[i] in units
    requires var (done, store) := Evaluate(units, world, at, start, Among(order, Above(units, n, m)));
             && AtOneHash(units, done, store, n, m)
             && Tried(units, world, at, n, HashOf(units[n], done)).Ran?
             && Tried(units, world, at, m, HashOf(units[n], done)) != Tried(units, world, at, n, HashOf(units[n], done))
    ensures exists one, other :: SettleApart(units, world, at, start, one, other, m)
  {
    hide Upstream, HasCycle, EdgesDeclared, Reaches, Above, AfterUpstream, Distinct, Tried, Evaluate, AllProduced,
         HashOf, Like, Members;
    var base := Among(order, Above(units, n, m));
    var h := HashOf(units[n], Evaluate(units, world, at, start, base).0);
    var one, other := TwinOrder(units, order, n, m, n, m), TwinOrder(units, order, n, m, m, n);
    TwinOrderLists(units, order, n, m, n, m);
    TwinOrderLists(units, order, n, m, m, n);
    AboveIsClosed(units, n, m);
    TwoMore(units, world, at, start, base, n, m);
    TwoMore(units, world, at, start, base, m, n);
    var rest := Among(order, units.Keys - Above(units, n, m) - {n, m});
    AreUnits(units, one);
    AreUnits(units, other);
    InTheMiddle(base, n, m);
    EvaluateKeeps(units, world, at, start, base + [n, m], rest, m);
    EvaluateKeeps(units, world, at, start, base + [m, n], rest, m);
    ApartOutcomes(units, world, at, n, m, h);
    assert one == base + [n, m] + rest && other == base + [m, n] + rest;
    assert Lists(units, one) && Lists(units, other);
    assert Evaluate(units, world, at, start, one).0[m] == Cached(h, Tried(units, world, at, n, h).result);
    assert Evaluate(units, world, at, start, other).0[m] == Tried(units, world, at, m, h);
    assert SettleApart(units, world, at, start, one, other, m);
  }

  /** Two valid orders in which `m` settles as two things. */
  predicate SettleApart(units: Units, world: World, at: Where, start: Store, one: seq<Name>, other: seq<Name>,
                        m: Name) {
    && Lists(units, one) && Lists(units, other)
    && (forall i :: 0 <= i < |one| ==> one[i] in units) && (forall i :: 0 <= i < |other| ==> other[i] in units)
    && m in Evaluate(units, world, at, start, one).0 && m in Evaluate(units, world, at, start, other).0
    && !Like(Evaluate(units, world, at, start, one).0[m], Evaluate(units, world, at, start, other).0[m])
  }

  lemma AreUnits(units: Units, order: seq<Name>)
    requires Lists(units, order)
    ensures Distinct(order) && forall i :: 0 <= i < |order| ==> order[i] in units
  {
    OrderedAreUnits(units, order);
  }

  lemma InTheMiddle(base: seq<Name>, n: Name, m: Name)
    ensures m in Members(base + [n, m]) && m in Members(base + [m, n])
  {
    assert (base + [n, m])[|base| + 1] == m && (base + [m, n])[|base|] == m;
  }

  lemma ApartOutcomes(units: Units, world: World, at: Where, n: Name, m: Name, h: Hash)
    requires n in units && m in units && Tried(units, world, at, n, h).Ran?
    requires Tried(units, world, at, m, h) != Tried(units, world, at, n, h)
    ensures !Like(Cached(h, Tried(units, world, at, n, h).result), Tried(units, world, at, m, h))
  {
    hide Tried;
    TriedIsAtHash(units, world, at, n, h);
    TriedIsNotCached(units, world, at, m, h);
  }

  lemma TriedIsNotCached(units: Units, world: World, at: Where, m: Name, h: Hash)
    requires m in units
    ensures !Tried(units, world, at, m, h).Cached?
  {
  }

  // ----- exactly when all orders agree

  /** Evaluated in `order`, every unit settles as in the sequential run. */
  ghost predicate OrderAgrees(units: Units, world: World, at: Where, start: Store, order: seq<Name>)
    requires EdgesDeclared(units) && !HasCycle(units)
  {
    && (forall i :: 0 <= i < |order| ==> order[i] in units)
    && var done, ref := Evaluate(units, world, at, start, order).0, Sequential(units, world, at, start);
       forall n :: n in units ==> n in done && n in ref && Like(done[n], ref[n])
  }

  /** What evaluating an order stored is what some unit of it ran to. */
  lemma {:induction false} EvaluateRan(units: Units, world: World, at: Where, start: Store, order: seq<Name>)
    requires Distinct(order) && forall i :: 0 <= i < |order| ==> order[i] in units
    ensures var (done, store) := Evaluate(units, world, at, start, order);
            forall h :: h in store && h !in start ==>
                          exists k :: k in done && k in units && done[k].Ran? && done[k].hash == h
                                      && done[k] == Tried(units, world, at, k, h)
  {
    hide Tried, Evaluate, AllProduced, HashOf;
    if order == [] {
      EvaluateNothing(units, world, at, start);
    } else {
      var front, n := order[..|order| - 1], order[|order| - 1];
      EvaluateRan(units, world, at, start, front);
      EvaluateUnfolds(units, world, at, start, order);
      EvaluateNames(units, world, at, start, front);
      var (before, stored) := Evaluate(units, world, at, start, front);
      var (done, store) := Evaluate(units, world, at, start, order);
      assert n !in before;
      forall h | h in store && h !in start
        ensures exists k :: k in done && k in units && done[k].Ran? && done[k].hash == h
                            && done[k] == Tried(units, world, at, k, h)
      {
        if h in stored {
          var k :| k in before && k in units && before[k].Ran? && before[k].hash == h
                   && before[k] == Tried(units, world, at, k, h);
          assert k in done && done[k] == before[k];
        } else {
          TriedIsAtHash(units, world, at, n, h);
        }
      }
    }
  }

  /** A prefix of an order that agrees settles as the sequential run. */
  lemma PrefixIsAlike(units: Units, world: World, at: Where, start: Store, base: seq<Name>, rest: seq<Name>)
    requires EdgesDeclared(units) && !HasCycle(units) && Distinct(base + rest)
    requires OrderAgrees(units, world, at, start, base + rest)
    requires forall i :: 0 <= i < |base| ==> base[i] in units
    ensures Alike(Evaluate(units, world, at, start, base).0, Sequential(units, world, at, start))
  {
    hide Evaluate, Sequential, Like, EdgesDeclared, HasCycle;
    EvaluateNames(units, world, at, start, base);
    forall n | n in Evaluate(units, world, at, start, base).0 {
      EvaluateKeeps(units, world, at, start, base, rest, n);
    }
  }

  /** Units that come first at one hash find it not stored once all they read is settled. */
  lemma FirstAreAtOneHash(units: Units, world: World, at: Where, start: Store, base: seq<Name>, ref: Done, n: Name,
                          m: Name, h: Hash)
    requires EdgesDeclared(units) && OneDeclaration(units) && StoreComplete(units, start)
    requires Distinct(base) && AfterUpstream(units, base) && Members(base) == Above(units, n, m)
    requires forall i :: 0 <= i < |base| ==> base[i] in units
    requires Alike(Evaluate(units, world, at, start, base).0, ref)
    requires n in units && m in units && Upstream(units[n]) <= Members(base) && Upstream(units[m]) <= Members(base)
    requires FirstAt(units, world, at, ref, n, h) && FirstAt(units, world, at, ref, m, h) && h !in start
    ensures var (done, store) := Evaluate(units, world, at, start, base);
            AtOneHash(units, done, store, n, m) && HashOf(units[n], done) == h
  {
    hide Evaluate, Like, EdgesDeclared, OneDeclaration, StoreComplete, Tracked, Upstream, AllProduced, HashOf, Tried,
         Reaches, Distinct, AfterUpstream, Complete, RunsRight, Grew, RanOnce, Alike, Members;
    var (done, store) := Evaluate(units, world, at, start, base);
    EvaluateSound(units, world, at, start, base);
    EvaluateRan(units, world, at, start, base);
    AlikeInputs(units, done, ref, n);
    AlikeInputs(units, done, ref, m);
    EvaluateNames(units, world, at, start, base);
    StoredIsMet(units, world, at, start, ref, done, store, h);
  }

  /** What a run stored, some unit it settled comes to and runs to. */
  lemma StoredIsMet(units: Units, world: World, at: Where, start: Store, ref: Done, done: Done, store: Store, h: Hash)
    requires Settles(units, done) && Alike(done, ref) && h !in start
    requires h in store ==> exists k :: k in done && k in units && done[k].Ran? && done[k].hash == h
                                        && done[k] == Tried(units, world, at, k, h)
    ensures h in store ==> exists k :: k in done && MeetsAt(units, ref, k, h) && Tried(units, world, at, k, h).Ran?
  {
    hide Upstream, AllProduced, HashOf, Tried, Alike;
    if h in store {
      var k :| k in done && k in units && done[k].Ran? && done[k].hash == h && done[k] == Tried(units, world, at, k, h);
      assert SettledAt(units, done, k);
      AlikeInputs(units, done, ref, k);
      assert MeetsAt(units, ref, k, h);
    }
  }

  /** Where all orders agree, so do the twins of the sequential run. */
  lemma AgreeingOrdersMeet(units: Units, world: World, at: Where, start: Store, n: Name, m: Name, h: Hash)
    requires EdgesDeclared(units) && !HasCycle(units) && OneDeclaration(units) && StoreComplete(units, start)
    requires forall order :: Lists(units, order) ==> OrderAgrees(units, world, at, start, order)
    requires var ref := Sequential(units, world, at, start);
             && FirstAt(units, world, at, ref, n, h) && FirstAt(units, world, at, ref, m, h) && h !in start
    requires !Reaches(units, n, m) && Tried(units, world, at, n, h).Ran?
    ensures Tried(units, world, at, m, h) == Tried(units, world, at, n, h)
  {
    hide Evaluate, Sequential, Like, EdgesDeclared, HasCycle, OneDeclaration, StoreComplete, Upstream, AllProduced,
         HashOf, Tried, Reaches, Distinct, AfterUpstream, Members, Among, Above, OrderAgrees;
    var ref := Sequential(units, world, at, start);
    if Tried(units, world, at, m, h) != Tried(units, world, at, n, h) {
      assert MeetsAt(units, ref, n, h) && !Reaches(units, m, n);
      OrderExactly(units);
      OrderLists(units);
      var order := OrderOf(units).value;
      var base := Among(order, Above(units, n, m));
      TwinBase(units, world, at, start, order, n, m, h);
      TwinsSettleDifferently(units, world, at, start, order, n, m);
      var one, other :| SettleApart(units, world, at, start, one, other, m);
      assert OrderAgrees(units, world, at, start, one) && OrderAgrees(units, world, at, start, other);
      ApartDisagree(units, world, at, start, one, other, m);
    }
  }

  lemma ApartDisagree(units: Units, world: World, at: Where, start: Store, one: seq<Name>, other: seq<Name>, m: Name)
    requires EdgesDeclared(units) && !HasCycle(units) && m in units
    requires OrderAgrees(units, world, at, start, one) && OrderAgrees(units, world, at, start, other)
    ensures !SettleApart(units, world, at, start, one, other, m)
  {
    hide Evaluate, Sequential, EdgesDeclared, HasCycle;
  }

  lemma TwinBase(units: Units, world: World, at: Where, start: Store, order: seq<Name>, n: Name, m: Name, h: Hash)
    requires EdgesDeclared(units) && !HasCycle(units) && OneDeclaration(units) && StoreComplete(units, start)
    requires Lists(units, order) && n in units && m in units && n != m
    requires !Reaches(units, n, m) && !Reaches(units, m, n)
    requires forall order :: Lists(units, order) ==> OrderAgrees(units, world, at, start, order)
    requires var ref := Sequential(units, world, at, start);
             && FirstAt(units, world, at, ref, n, h) && FirstAt(units, world, at, ref, m, h) && h !in start
    ensures var base := Among(order, Above(units, n, m));
            && (forall i :: 0 <= i < |base| ==> base[i] in units)
            && var (done, store) := Evaluate(units, world, at, start, base);
               AtOneHash(units, done, store, n, m) && HashOf(units[n], done) == h
  {
    hide Evaluate, Sequential, Like, EdgesDeclared, HasCycle, OneDeclaration, StoreComplete, Upstream, AllProduced,
         HashOf, Tried, Reaches, Among, Above, OrderAgrees, FirstAt, AtOneHash, Distinct, AfterUpstream, Members;
    var base := Among(order, Above(units, n, m));
    var rest := [n, m] + Among(order, units.Keys - Above(units, n, m) - {n, m});
    var one := TwinOrder(units, order, n, m, n, m);
    TwinOrderLists(units, order, n, m, n, m);
    AboveIsClosed(units, n, m);
    assert one == base + rest;
    assert OrderAgrees(units, world, at, start, base + rest);
    PartIsOrdered(units, base, rest);
    PrefixIsAlike(units, world, at, start, base, rest);
    FirstAreAtOneHash(units, world, at, start, base, Sequential(units, world, at, start), n, m, h);
  }

  lemma PartIsOrdered(units: Units, base: seq<Name>, rest: seq<Name>)
    requires Lists(units, base + rest)
    ensures Distinct(base + rest)
    ensures Distinct(base) && AfterUpstream(units, base) && forall i :: 0 <= i < |base| ==> base[i] in units
  {
    hide Upstream;
    OrderedAreUnits(units, base + rest);
    forall i | 0 <= i < |base|
      ensures base[i] in units && Upstream(units[base[i]]) <= Members(base[..i])
    {
      assert (base + rest)[i] == base[i] && (base + rest)[..i] == base[..i];
    }
    forall i, j | 0 <= i < j < |base|
      ensures base[i] != base[j]
    {
      assert (base + rest)[i] == base[i] && (base + rest)[j] == base[j];
    }
  }

  /**
   ALL ORDERS AGREE EXACTLY WHERE TWINS DO: every valid order of a graph settles every unit as the sequential run does
   if and only if, of units that come first at one hash there, not stored before and neither reading the other, what one
   runs to a result all would.
   */
  lemma OrdersAgreeExactly(units: Units, world: World, at: Where, start: Store)
    requires EdgesDeclared(units) && !HasCycle(units) && OneDeclaration(units) && StoreComplete(units, start)
    ensures TwinsAgree(units, world, at, start, Sequential(units, world, at, start)) <==>
            forall order :: Lists(units, order) ==> OrderAgrees(units, world, at, start, order)
  {
    hide Evaluate, Sequential, Like, EdgesDeclared, HasCycle, OneDeclaration, StoreComplete, Tried, Reaches, FirstAt,
         OrderAgrees, Lists;
    var ref := Sequential(units, world, at, start);
    if TwinsAgree(units, world, at, start, ref) {
      forall order | Lists(units, order)
        ensures OrderAgrees(units, world, at, start, order)
      {
        OneOrderAgrees(units, world, at, start, order);
      }
    }
    if forall order :: Lists(units, order) ==> OrderAgrees(units, world, at, start, order) {
      AgreeingOrdersAgree(units, world, at, start);
    }
  }

  lemma AgreeingOrdersAgree(units: Units, world: World, at: Where, start: Store)
    requires EdgesDeclared(units) && !HasCycle(units) && OneDeclaration(units) && StoreComplete(units, start)
    requires forall order :: Lists(units, order) ==> OrderAgrees(units, world, at, start, order)
    ensures TwinsAgree(units, world, at, start, Sequential(units, world, at, start))
  {
    hide Sequential, EdgesDeclared, HasCycle, OneDeclaration, StoreComplete, Tried, Reaches, OrderAgrees, Lists,
         AllProduced, HashOf;
    var ref := Sequential(units, world, at, start);
    forall n, m, h: Hash | h !in start && FirstAt(units, world, at, ref, n, h) && FirstAt(units, world, at, ref, m, h)
                           && !Reaches(units, n, m) && Tried(units, world, at, n, h).Ran?
      ensures Tried(units, world, at, m, h) == Tried(units, world, at, n, h)
    {
      AgreeingOrdersMeet(units, world, at, start, n, m, h);
    }
  }

  lemma OneOrderAgrees(units: Units, world: World, at: Where, start: Store, order: seq<Name>)
    requires EdgesDeclared(units) && !HasCycle(units) && OneDeclaration(units) && StoreComplete(units, start)
    requires TwinsAgree(units, world, at, start, Sequential(units, world, at, start)) && Lists(units, order)
    ensures OrderAgrees(units, world, at, start, order)
  {
    hide Evaluate, Sequential, Like, EdgesDeclared, HasCycle, OneDeclaration, StoreComplete, TwinsAgree, AfterUpstream,
         Distinct, Members, Sound, Tracked;
    AreUnits(units, order);
    EvaluateSound(units, world, at, start, order);
    var (done, store) := Evaluate(units, world, at, start, order);
    AgreesWithSequential(units, world, at, start, done, store);
  }
}
