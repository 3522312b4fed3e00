/**
 A reading is taken before the lock and used over the claims read under it: what it lends then, for whoever asks, and
 when it is still a true reading.
 */
module Stale {
  import opened Options
  import opened Vectors
  import opened Supply
  import opened Order
  import opened World

  predicate DistinctPids(held: seq<Holding>) {
    forall i, j :: 0 <= i < j < |held| ==> held[i].pid != held[j].pid
  }

  lemma {:induction false} RemoveOne(held: seq<Holding>, k: nat, reading: Reading, n: Name)
    requires k < |held|
    ensures SumUsed(held, reading, n) ==
            SumUsed(held[..k] + held[k + 1..], reading, n) + Used(reading, held[k].pid, n)
  {
    var last := |held| - 1;
    if k == last {
      assert held[..k] + held[k + 1..] == held[..last];
    } else {
      RemoveOne(held[..last], k, reading, n);
      var rest := held[..k] + held[k + 1..];
      assert rest[..|rest| - 1] == held[..last][..k] + held[..last][k + 1..];
      assert rest[|rest| - 1] == held[last];
    }
  }

  /** Distinct processes that all ran then used no more than everything that ran then. */
  lemma {:induction false} UseOfSome(some: seq<Holding>, all: seq<Holding>, reading: Reading, n: Name)
    requires DistinctPids(some)
    requires forall h :: h in some && h.pid in reading.usage ==> exists g :: g in all && g.pid == h.pid
    ensures SumUsed(some, reading, n) <= SumUsed(all, reading, n)
    decreases |some|
  {
    if some == [] {
      UseIsNonNegative(all, reading, n);
    } else {
      var front, h := some[..|some| - 1], some[|some| - 1];
      assert h in some;
      if h.pid in reading.usage {
        var k :| 0 <= k < |all| && all[k].pid == h.pid;
        RemoveOne(all, k, reading, n);
        var rest := all[..k] + all[k + 1..];
        forall f | f in front && f.pid in reading.usage
          ensures exists g :: g in rest && g.pid == f.pid
        {
          assert f in some;
          var j :| 0 <= j < |all| && all[j].pid == f.pid;
          assert j != k;
          assert all[j] in rest by {
            if j < k { assert rest[j] == all[j]; } else { assert rest[j - 1] == all[j]; }
          }
        }
        UseOfSome(front, rest, reading, n);
      } else {
        UseOfSome(front, all, reading, n);
      }
    }
  }

  lemma {:induction false} UseIsNonNegative(held: seq<Holding>, reading: Reading, n: Name)
    ensures SumUsed(held, reading, n) >= 0.0
  {
    if held != [] {
      UseIsNonNegative(held[..|held| - 1], reading, n);
    }
  }

  // ----- the room for any asker

  /** Two readings name only processes of the claims they were read with. */
  predicate Names(reading: Reading, held: seq<Holding>) {
    forall pid :: pid in reading.usage ==> exists h :: h in held && h.pid == pid
  }

  lemma ClaimsAppend(held: seq<Holding>, h: Holding, asker: Option<int>, mine: bool)
    ensures Claims(held + [h], asker, mine) ==
            if IsOwn(h, asker) == mine then Claims(held, asker, mine) + [h] else Claims(held, asker, mine)
  {
    Appended(held, h);
  }

  /** Own claims and others' are all the claims. */
  lemma {:induction false} ClaimsSplit(held: seq<Holding>, asker: Option<int>, reading: Reading, n: Name)
    ensures SumUsed(held, reading, n) ==
            SumUsed(Claims(held, asker, false), reading, n) + SumUsed(Claims(held, asker, true), reading, n)
  {
    if held != [] {
      hide Claims, Used, IsOwn;
      var front, h := held[..|held| - 1], held[|held| - 1];
      assert held == front + [h];
      ClaimsSplit(front, asker, reading, n);
      UsedAppends(front, h, reading, n);
      UsedAppends(Claims(front, asker, IsOwn(h, asker)), h, reading, n);
      ClaimsAppend(front, h, asker, true);
      ClaimsAppend(front, h, asker, false);
    } else {
      assert Claims([], asker, false) == [] == Claims([], asker, true);
    }
  }

  lemma UsedAppends(held: seq<Holding>, h: Holding, reading: Reading, n: Name)
    ensures SumUsed(held + [h], reading, n) == SumUsed(held, reading, n) + Used(reading, h.pid, n)
  {
    Appended(held, h);
  }

  lemma {:induction false} ClaimsAreHeld(held: seq<Holding>, asker: Option<int>, mine: bool)
    ensures forall h :: h in Claims(held, asker, mine) ==> h in held
  {
    if held != [] {
      ClaimsAreHeld(held[..|held| - 1], asker, mine);
    }
  }

  /** What the asker's own claims count for: their use, as far as they declared it. */
  lemma {:induction false} TakenIsUse(held: seq<Holding>, reading: Reading, n: Name)
    ensures SumTaken(held, reading, n) <= SumUsed(held, reading, n)
    ensures (forall h :: h in held ==> Used(reading, h.pid, n) <= Declared(h.load, n)) ==>
              SumTaken(held, reading, n) == SumUsed(held, reading, n)
  {
    hide Used, Declared;
    if held != [] {
      TakenIsUse(held[..|held| - 1], reading, n);
      assert held[|held| - 1] in held;
    }
  }

  /** The room counting others in full and the asker's own claims for what they take. */
  function RoomBeside(capacity: Capacity, world: World, held: seq<Holding>, reading: Reading, asker: Option<int>,
                      n: Name)
    : real
  {
    Max(0.0, Lent(capacity, world, n)
             - (SumDeclared(Claims(held, asker, false), n) + SumTaken(Claims(held, asker, true), reading, n)))
  }

  /** On a current reading the room for an asker is what the box lends less others' declarations and its own use. */
  lemma CurrentRoomFor(capacity: Capacity, world: World, held: seq<Holding>, reading: Reading, asker: Option<int>,
                       n: Name)
    requires !n.Seat? && Sound(world, held, reading)
    ensures RoomOf(capacity, held, reading, asker, n) == RoomBeside(capacity, world, held, reading, asker, n)
  {
    hide RoomOf, Declared, Used, SumDeclared, SumUsed, SumOwed, SumTaken, Claims;
    var others, own := Claims(held, asker, false), Claims(held, asker, true);
    OsRoomIs(capacity, held, reading, asker, n);
    IdleIsFreeLessUse(world, held, reading, n);
    ClaimsSplit(held, asker, reading, n);
    ClaimsAreHeld(held, asker, false);
    ClaimsAreHeld(held, asker, true);
    assert forall h :: h in held ==> Used(reading, h.pid, n) <= Declared(h.load, n);
    OwedIsDeclaredLessUse(others, reading, n);
    TakenIsUse(own, reading, n);
  }

  /** A reading taken before lends at most that, with the use it shows of the asker's own claims. */
  lemma StaleRoomFor(capacity: Capacity, world: World, before: seq<Holding>, stale: Reading, now: seq<Holding>,
                     asker: Option<int>, n: Name)
    requires !n.Seat? && Sound(world, before, stale) && DistinctPids(now) && Names(stale, before)
    ensures RoomOf(capacity, now, stale, asker, n) <= RoomBeside(capacity, world, now, stale, asker, n)
  {
    hide RoomOf, Declared, Used, SumDeclared, SumUsed, SumOwed, SumTaken, Claims;
    var others, own := Claims(now, asker, false), Claims(now, asker, true);
    OsRoomIs(capacity, now, stale, asker, n);
    IdleIsFreeLessUse(world, before, stale, n);
    ClaimsSplit(now, asker, stale, n);
    UseOfSome(now, before, stale, n);
    OwedIsDeclaredLessUse(others, stale, n);
    TakenIsUse(own, stale, n);
  }

  /** The asker's own claims are read to take no less than they take now. */
  predicate OwnReadNoLess(now: seq<Holding>, stale: Reading, current: Reading, asker: Option<int>, n: Name) {
    SumTaken(Claims(now, asker, true), stale, n) >= SumTaken(Claims(now, asker, true), current, n)
  }

  /**
   A STALE READING ONLY LENDS LESS, to whoever asks: `stale` was read while `before` ran and names only processes of
   `before`; whatever claims arrived, left or grew since, it lends over `now` at most what a reading of `now` lends,
   as long as the asker's own claims are read to take no less than they do -- always so of one that holds none.
   */
  lemma StaleReadingLendsLess(capacity: Capacity, world: World, before: seq<Holding>, stale: Reading, now: seq<Holding>,
                              current: Reading, asker: Option<int>, n: Name)
    requires Unwatched(capacity)
    requires Sound(world, before, stale) && Names(stale, before)
    requires Sound(world, now, current) && DistinctPids(now)
    requires OwnReadNoLess(now, stale, current, asker, n)
    ensures RoomOf(capacity, now, stale, asker, n) <= RoomOf(capacity, now, current, asker, n)
  {
    if !n.Seat? {
      hide RoomOf, Lent, SumTaken, SumDeclared, Claims;
      CurrentRoomFor(capacity, world, now, current, asker, n);
      StaleRoomFor(capacity, world, before, stale, now, asker, n);
    }
  }

  /** Who holds no un-kept claim, or asks as nobody, owns none whose use could be misread. */
  lemma NothingOwnIsReadLess(now: seq<Holding>, stale: Reading, current: Reading, asker: Option<int>, n: Name)
    requires forall h :: h in now ==> !IsOwn(h, asker)
    ensures OwnReadNoLess(now, stale, current, asker, n)
  {
    OwnsNone(now, asker);
  }

  lemma {:induction false} OwnsNone(held: seq<Holding>, asker: Option<int>)
    requires forall h :: h in held ==> !IsOwn(h, asker)
    ensures Claims(held, asker, true) == []
  {
    if held != [] {
      assert held[|held| - 1] in held;
      OwnsNone(held[..|held| - 1], asker);
    }
  }

  /** Where the reading still shows the claims that run, it lends no more exactly when it reads the asker's own to take
      no less, or lends nothing. */
  lemma LendsNoMoreExactly(capacity: Capacity, world: World, now: seq<Holding>, stale: Reading, current: Reading,
                           asker: Option<int>, n: Name)
    requires !n.Seat? && Sound(world, now, stale) && Sound(world, now, current)
    ensures RoomOf(capacity, now, stale, asker, n) <= RoomOf(capacity, now, current, asker, n) <==>
            OwnReadNoLess(now, stale, current, asker, n) || RoomOf(capacity, now, stale, asker, n) == 0.0
  {
    hide RoomOf, Lent, SumTaken, SumDeclared, Claims;
    CurrentRoomFor(capacity, world, now, stale, asker, n);
    CurrentRoomFor(capacity, world, now, current, asker, n);
  }

  // ----- when a reading taken before is still a true one

  predicate Runs(held: seq<Holding>, pid: int) {
    exists h :: h in held && h.pid == pid
  }

  /** The claims of `before` whose process runs a claim of `now`, or the others. */
  function Since(before: seq<Holding>, now: seq<Holding>, stayed: bool): seq<Holding> {
    if before == [] then []
    else
      var h := before[|before| - 1];
      Since(before[..|before| - 1], now, stayed) + if Runs(now, h.pid) == stayed then [h] else []
  }

  lemma SinceAppends(front: seq<Holding>, h: Holding, now: seq<Holding>, stayed: bool)
    ensures Since(front + [h], now, stayed) ==
            if Runs(now, h.pid) == stayed then Since(front, now, stayed) + [h] else Since(front, now, stayed)
  {
    Appended(front, h);
  }

  lemma {:induction false} SinceSplits(before: seq<Holding>, now: seq<Holding>, reading: Reading, n: Name)
    ensures SumUsed(before, reading, n) ==
            SumUsed(Since(before, now, true), reading, n) + SumUsed(Since(before, now, false), reading, n)
  {
    if before != [] {
      hide Since, Used, Runs;
      var front, h := before[..|before| - 1], before[|before| - 1];
      assert before == front + [h];
      SinceSplits(front, now, reading, n);
      UsedAppends(front, h, reading, n);
      UsedAppends(Since(front, now, Runs(now, h.pid)), h, reading, n);
      SinceAppends(front, h, now, true);
      SinceAppends(front, h, now, false);
    } else {
      assert Since([], now, true) == [] == Since([], now, false);
    }
  }

  lemma {:induction false} SinceMembers(before: seq<Holding>, now: seq<Holding>, stayed: bool)
    ensures forall h :: h in Since(before, now, stayed) <==> h in before && Runs(now, h.pid) == stayed
    ensures DistinctPids(before) ==> DistinctPids(Since(before, now, stayed))
  {
    if before != [] {
      hide Runs;
      var front, h := before[..|before| - 1], before[|before| - 1];
      assert before == front + [h];
      SinceMembers(front, now, stayed);
      SinceAppends(front, h, now, stayed);
      if DistinctPids(before) {
        forall g | g in front
          ensures g.pid != h.pid
        {
          var i :| 0 <= i < |front| && front[i] == g;
          assert before[i].pid != before[|front|].pid;
        }
      }
    }
  }

  /** What stayed is read to use exactly what the claims that run now are read to use. */
  lemma StayedIsNow(before: seq<Holding>, now: seq<Holding>, stale: Reading, n: Name)
    requires DistinctPids(before) && DistinctPids(now) && Names(stale, before)
    ensures SumUsed(Since(before, now, true), stale, n) == SumUsed(now, stale, n)
  {
    hide SumUsed, DistinctPids;
    var stayed := Since(before, now, true);
    SinceMembers(before, now, true);
    forall h | h in now && h.pid in stale.usage
      ensures exists g :: g in stayed && g.pid == h.pid
    {
      var g :| g in before && g.pid == h.pid;
      assert Runs(now, g.pid);
    }
    UseOfSome(now, stayed, stale, n);
    UseOfSome(stayed, now, stale, n);
  }

  lemma {:induction false} NoUseInAll(held: seq<Holding>, reading: Reading, n: Name)
    ensures SumUsed(held, reading, n) == 0.0 <==> forall h :: h in held ==> Used(reading, h.pid, n) == 0.0
  {
    hide Used;
    if held != [] {
      var front := held[..|held| - 1];
      assert held == front + [held[|held| - 1]];
      NoUseInAll(front, reading, n);
      UseIsNonNegative(front, reading, n);
    }
  }

  /** What left since is read to use nothing of this name. */
  predicate LeftUsedNone(before: seq<Holding>, now: seq<Holding>, stale: Reading, n: Name) {
    forall g :: g in before && !Runs(now, g.pid) ==> Used(stale, g.pid, n) == 0.0
  }

  lemma LeftUsedNoneIsSameUse(before: seq<Holding>, now: seq<Holding>, stale: Reading, n: Name)
    requires DistinctPids(before) && DistinctPids(now) && Names(stale, before)
    ensures LeftUsedNone(before, now, stale, n) <==> SumUsed(before, stale, n) == SumUsed(now, stale, n)
  {
    hide SumUsed, DistinctPids, Runs, Used;
    SinceSplits(before, now, stale, n);
    SinceMembers(before, now, false);
    StayedIsNow(before, now, stale, n);
    NoUseInAll(Since(before, now, false), stale, n);
  }

  /**
   A READING TAKEN BEFORE THE LOCK IS STILL TRUE UNDER IT exactly when the claims that left since were read to use
   nothing, and no process that stayed was read to use more than it declares now. Claims that arrived do not matter.
   */
  lemma StillSoundExactly(world: World, before: seq<Holding>, stale: Reading, now: seq<Holding>)
    requires Sound(world, before, stale) && Names(stale, before) && DistinctPids(before) && DistinctPids(now)
    ensures Sound(world, now, stale) <==>
            && LeftUsedNone(before, now, stale, Cpu) && LeftUsedNone(before, now, stale, Mem)
            && forall h :: h in now ==> && Used(stale, h.pid, Cpu) <= Declared(h.load, Cpu)
                                        && Used(stale, h.pid, Mem) <= Declared(h.load, Mem)
  {
    hide SumUsed, SumResident, DistinctPids, LeftUsedNone, Used;
    LeftUsedNoneIsSameUse(before, now, stale, Cpu);
    LeftUsedNoneIsSameUse(before, now, stale, Mem);
    ResidentIsUsed(before, stale);
    ResidentIsUsed(now, stale);
  }
}
