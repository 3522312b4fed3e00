/**
 A closed world for the box: what is used outside the ledger is constant, and each claim's process uses some
 amount up to its declaration. Then the measured room is plain arithmetic on declarations.
 */
module World {
  import opened Options
  import opened Vectors
  import opened Supply
  import opened Order

  /** The cores and bytes the OS has free when no claim runs: its totals less the constant outside use. */
  datatype World = World(cpu: real, mem: int)

  /** No seat is observed in the process table and every seat's supply could be read. */
  predicate Unwatched(capacity: Capacity) {
    capacity.watched == {} && capacity.blind == {}
  }

  function Free(world: World, n: Name): real {
    match n
    case Cpu => world.cpu
    case Mem => world.mem as real
    case Seat(_) => 0.0
  }

  /** `reading` is what the OS shows while exactly `held` runs: each claim's use is part of its declaration. */
  predicate Sound(world: World, held: seq<Holding>, reading: Reading) {
    && reading.idle == world.cpu - SumUsed(held, reading, Cpu)
    && reading.available == world.mem - SumResident(held, reading)
    && forall h :: h in held ==> && Used(reading, h.pid, Cpu) <= Declared(h.load, Cpu)
                                 && Used(reading, h.pid, Mem) <= Declared(h.load, Mem)
  }

  /** What the box lends of `n` to all claims together. */
  function Lent(capacity: Capacity, world: World, n: Name): real {
    if n.Seat? then Size(capacity, n) else Min(Free(world, n) - Kept(capacity, n), Size(capacity, n))
  }

  /** `demand` and everything `held` declares stay within what the box lends. */
  predicate Spare(capacity: Capacity, world: World, held: seq<Holding>, demand: Vector) {
    forall n :: n in demand ==> demand[n] + SumDeclared(held, n) <= Lent(capacity, world, n)
  }

  lemma {:induction false} ResidentIsUsed(held: seq<Holding>, reading: Reading)
    ensures SumUsed(held, reading, Mem) == SumResident(held, reading) as real
  {
    if held != [] {
      ResidentIsUsed(held[..|held| - 1], reading);
    }
  }

  lemma IdleIsFreeLessUse(world: World, held: seq<Holding>, reading: Reading, n: Name)
    requires Sound(world, held, reading) && !n.Seat?
    ensures Idle(reading, n) == Free(world, n) - SumUsed(held, reading, n)
  {
    ResidentIsUsed(held, reading);
  }

  /** When no use passes its declaration, what is owed is what is declared less what is used. */
  lemma {:induction false} OwedIsDeclaredLessUse(held: seq<Holding>, reading: Reading, n: Name)
    ensures SumOwed(held, reading, n) >= SumDeclared(held, n) - SumUsed(held, reading, n)
    ensures (forall h :: h in held ==> Used(reading, h.pid, n) <= Declared(h.load, n)) ==>
              SumOwed(held, reading, n) == SumDeclared(held, n) - SumUsed(held, reading, n)
  {
    if held != [] {
      OwedIsDeclaredLessUse(held[..|held| - 1], reading, n);
      assert held[|held| - 1] in held;
    }
  }

  lemma {:induction false} SeatsAreDeclared(held: seq<Holding>, s: string)
    ensures SumDeclared(held, Seat(s)) == SumSeats(held, s) as real
  {
    if held != [] {
      SeatsAreDeclared(held[..|held| - 1], s);
    }
  }

  /** Asked for by nobody that holds a claim, every claim counts in full. */
  lemma OsRoom(capacity: Capacity, held: seq<Holding>, reading: Reading, n: Name)
    requires !n.Seat?
    ensures RoomOf(capacity, held, reading, None, n) ==
            Max(0.0, Min(Idle(reading, n) - Kept(capacity, n) - SumOwed(held, reading, n),
                         Size(capacity, n) - SumDeclared(held, n)))
  {
    hide SumOwed, SumDeclared;
    NobodyOwns(held);
    assert SumTaken([], reading, n) == 0.0;
  }

  lemma CurrentOsRoom(capacity: Capacity, world: World, held: seq<Holding>, reading: Reading, n: Name)
    requires !n.Seat? && Sound(world, held, reading)
    ensures RoomOf(capacity, held, reading, None, n) ==
            Max(0.0, Lent(capacity, world, n) - SumDeclared(held, n))
  {
    hide RoomOf, Declared, Used, SumDeclared, SumUsed, SumOwed;
    OsRoom(capacity, held, reading, n);
    IdleIsFreeLessUse(world, held, reading, n);
    assert forall h :: h in held ==> Used(reading, h.pid, n) <= Declared(h.load, n);
    OwedIsDeclaredLessUse(held, reading, n);
  }

  /** THE CURRENT ROOM: the smaller of OS free less margin and size, less every declaration, floored at zero. */
  lemma CurrentRoom(capacity: Capacity, world: World, held: seq<Holding>, reading: Reading, n: Name)
    requires Unwatched(capacity)
    requires n.Seat? || Sound(world, held, reading)
    ensures RoomOf(capacity, held, reading, None, n) ==
            Max(0.0, Lent(capacity, world, n) - SumDeclared(held, n))
  {
    if n.Seat? {
      SeatsAreDeclared(held, n.tool);
    } else {
      CurrentOsRoom(capacity, world, held, reading, n);
    }
  }

  // ----- fitting is arithmetic

  /** A demand of seats alone is decided without the OS; any other on a sound reading. */
  predicate Reads(world: World, held: seq<Holding>, reading: Reading, demand: Vector) {
    (Cpu !in demand && Mem !in demand) || Sound(world, held, reading)
  }

  lemma FitsIsSpare(capacity: Capacity, world: World, held: seq<Holding>, reading: Reading, demand: Vector)
    requires Unwatched(capacity) && Reads(world, held, reading, demand)
    ensures Fits(capacity, held, reading, demand) <==> Spare(capacity, world, held, demand)
  {
    hide RoomOf, Decides, Sound, Lent;
    DecidesIsRoom(capacity, held, reading, demand, None);
    forall n | n in demand
      ensures demand[n] <= RoomOf(capacity, held, reading, None, n) <==>
              demand[n] + SumDeclared(held, n) <= Lent(capacity, world, n)
    {
      CurrentRoom(capacity, world, held, reading, n);
    }
  }

  lemma DeclaredAppends(held: seq<Holding>, h: Holding, n: Name)
    ensures SumDeclared(held + [h], n) == SumDeclared(held, n) + Declared(h.load, n)
    ensures Declared(h.load, n) >= 0.0
  {
    Appended(held, h);
  }

  lemma SumsAppend(held: seq<Holding>, h: Holding, reading: Reading, n: Name)
    ensures SumUsed(held + [h], reading, n) == SumUsed(held, reading, n) + Used(reading, h.pid, n)
    ensures SumResident(held + [h], reading) ==
            SumResident(held, reading) + if h.pid in reading.usage then reading.usage[h.pid].resident else 0
  {
    hide Used;
    Appended(held, h);
  }

  lemma {:induction false} StayAndGone(held: seq<Holding>, moment: real, reading: Reading)
    ensures SumUsed(Stay(held, moment), reading, Cpu) + SumUsed(Gone(held, moment), reading, Cpu) ==
            SumUsed(held, reading, Cpu)
    ensures SumResident(Stay(held, moment), reading) + SumResident(Gone(held, moment), reading) ==
            SumResident(held, reading)
  {
    if held == [] {
      NothingSplits(moment, reading);
    } else {
      hide Stay, Gone, SumUsed, SumResident;
      var front, h := held[..|held| - 1], held[|held| - 1];
      assert held == front + [h];
      StayAndGone(front, moment, reading);
      OneMoreSplits(front, h, moment, reading);
    }
  }

  lemma NothingSplits(moment: real, reading: Reading)
    ensures Stay([], moment) == [] == Gone([], moment)
    ensures SumUsed([], reading, Cpu) == 0.0 && SumResident([], reading) == 0
  {
  }

  lemma OneMoreSplits(front: seq<Holding>, h: Holding, moment: real, reading: Reading)
    requires SumUsed(Stay(front, moment), reading, Cpu) + SumUsed(Gone(front, moment), reading, Cpu) ==
             SumUsed(front, reading, Cpu)
    requires SumResident(Stay(front, moment), reading) + SumResident(Gone(front, moment), reading) ==
             SumResident(front, reading)
    ensures SumUsed(Stay(front + [h], moment), reading, Cpu) + SumUsed(Gone(front + [h], moment), reading, Cpu) ==
            SumUsed(front + [h], reading, Cpu)
    ensures SumResident(Stay(front + [h], moment), reading) + SumResident(Gone(front + [h], moment), reading) ==
            SumResident(front + [h], reading)
  {
    hide Used, Stay, Gone, SumUsed, SumResident;
    SplitsAppend(front, h, moment);
    SumsAppend(front, h, reading, Cpu);
    if h.deadline > moment {
      SumsAppend(Stay(front, moment), h, reading, Cpu);
    } else {
      SumsAppend(Gone(front, moment), h, reading, Cpu);
    }
  }

  lemma {:induction false} StayMembers(held: seq<Holding>, moment: real)
    ensures forall h :: h in Stay(held, moment) <==> h in held && h.deadline > moment
  {
    if held != [] {
      var front, h := held[..|held| - 1], held[|held| - 1];
      StayMembers(front, moment);
      SplitsAppend(front, h, moment);
      assert held == front + [h];
    }
  }

  lemma {:induction false} SameUsage(held: seq<Holding>, reading: Reading, other: Reading)
    requires reading.usage == other.usage
    ensures SumUsed(held, reading, Cpu) == SumUsed(held, other, Cpu)
    ensures SumResident(held, reading) == SumResident(held, other)
  {
    if held != [] {
      SameUsage(held[..|held| - 1], reading, other);
    }
  }

  /** Releasing what ended leaves a sound reading of what stays. */
  lemma ReleasedIsSound(world: World, held: seq<Holding>, reading: Reading, moment: real)
    requires Sound(world, held, reading)
    ensures Sound(world, Stay(held, moment), Released(reading, Gone(held, moment)))
  {
    hide SumUsed, SumResident, Stay, Gone, Declared;
    StayAndGone(held, moment, reading);
    StayMembers(held, moment);
    SameUsage(Stay(held, moment), reading, Released(reading, Gone(held, moment)));
  }

  lemma FitsAfterIsSpare(capacity: Capacity, world: World, held: seq<Holding>, reading: Reading, demand: Vector,
                         moment: real)
    requires Unwatched(capacity) && Reads(world, held, reading, demand)
    ensures FitsAfter(capacity, held, reading, demand, moment) <==>
            Spare(capacity, world, Stay(held, moment), demand)
  {
    hide Fits, Spare;
    if Sound(world, held, reading) {
      ReleasedIsSound(world, held, reading, moment);
    }
    FitsIsSpare(capacity, world, Stay(held, moment), Released(reading, Gone(held, moment)), demand);
  }

  // ----- claims that stay past a moment

  lemma StayDeclaredAppends(held: seq<Holding>, h: Holding, moment: real, n: Name)
    ensures SumDeclared(held + [h], n) == SumDeclared(held, n) + Declared(h.load, n)
    ensures SumDeclared(Stay(held + [h], moment), n) ==
            SumDeclared(Stay(held, moment), n) + if h.deadline > moment then Declared(h.load, n) else 0.0
    ensures Declared(h.load, n) >= 0.0
  {
    hide SumDeclared, Stay;
    SplitsAppend(held, h, moment);
    DeclaredAppends(held, h, n);
    DeclaredAppends(Stay(held, moment), h, n);
  }

  lemma {:induction false} StayDeclaresLess(held: seq<Holding>, earlier: real, later: real, n: Name)
    requires earlier <= later
    ensures SumDeclared(Stay(held, later), n) <= SumDeclared(Stay(held, earlier), n) <= SumDeclared(held, n)
  {
    if held != [] {
      var front, h := held[..|held| - 1], held[|held| - 1];
      StayDeclaresLess(front, earlier, later, n);
      assert held == front + [h];
      StayDeclaredAppends(front, h, earlier, n);
      StayDeclaredAppends(front, h, later, n);
    }
  }

  /** What is spare beside everything held is spare beside what stays, and the later the more. */
  lemma SpareLater(capacity: Capacity, world: World, held: seq<Holding>, demand: Vector, earlier: real, later: real)
    requires earlier <= later
    ensures Spare(capacity, world, held, demand) ==> Spare(capacity, world, Stay(held, earlier), demand)
    ensures Spare(capacity, world, Stay(held, earlier), demand) ==>
              Spare(capacity, world, Stay(held, later), demand)
  {
    forall n | n in demand {
      StayDeclaresLess(held, earlier, later, n);
    }
  }
}
