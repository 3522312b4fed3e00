/**
 What the box can still lend, measured: of cores and memory what is idle beyond what claims may yet take, within the
 size beyond what they declared; of a tool's seats those neither held nor seen in use.
 */
module Supply {
  import opened Options
  import opened Vectors
  import opened Sums

  /** What a claim or a ticket declares: whole cores, whole bytes, whole seats. */
  datatype Load = Load(cpu: nat, mem: nat, seats: map<string, nat>)

  /** One running claim as its ledger row records it; `external` is a row carrying a liveness probe. */
  datatype Holding = Holding(id: nat, pid: int, load: Load, deadline: real, started: real, key: string,
                             kept: bool, external: bool)

  /** The machine's size for admitted runs, the margins kept free, and which seats are observed or unreadable. */
  datatype Capacity = Capacity(cpu: real, mem: int, seats: map<string, nat>, keptCpu: real, keptMem: int,
                               watched: set<string>, blind: set<string>)

  type Cores = r: real | r >= 0.0

  /** The memory and cores of a claim's processes, as read. */
  datatype Usage = Usage(resident: nat, busy: Cores)

  /** The OS now: idle cores, available bytes, each claim pid's use, and each watched seat's observed count. */
  datatype Reading = Reading(idle: real, available: int, usage: map<int, Usage>, seatsInUse: map<string, nat>,
                             unseen: set<string>)

  function Declared(load: Load, n: Name): real {
    match n
    case Cpu => load.cpu as real
    case Mem => load.mem as real
    case Seat(s) => if s in load.seats then load.seats[s] as real else 0.0
  }

  function Amounts(load: Load): map<Name, real> {
    map n | n in {Cpu, Mem} + (set s | s in load.seats :: Seat(s)) :: Declared(load, n)
  }

  function VectorOf(load: Load): (v: Vector)
    ensures forall n :: Amount(v, n) == Declared(load, n)
  {
    Keep(Amounts(load))
  }

  function SeatNames(v: Vector): set<string> {
    set n | n in v && n.Seat? :: n.tool
  }

  /** The row a demand writes: each amount truncated to a whole count, so memory loses a fraction of a byte. */
  function LoadOf(demand: Vector): (load: Load)
    ensures forall n :: Declared(load, n) <= Amount(demand, n)
  {
    var seats: map<string, nat> := map s | s in SeatNames(demand) :: Amount(demand, Seat(s)).Floor;
    Load(Amount(demand, Cpu).Floor, Amount(demand, Mem).Floor, seats)
  }

  /** A demand the ledger books: whole cores and seats, memory wherever cores run, and not nothing. */
  predicate Checked(demand: Vector) {
    && demand != map[]
    && (Cpu in demand ==> Mem in demand)
    && forall n :: n in demand && n != Mem ==> demand[n] == demand[n].Floor as real
  }

  /** A demand whose memory is a whole number of bytes: then its row says exactly what it asks. */
  predicate WholeBytes(demand: Vector) {
    Amount(demand, Mem) == Amount(demand, Mem).Floor as real
  }

  // ----- sums over held claims, oldest first

  function SumDeclared(held: seq<Holding>, n: Name): (total: real)
    ensures total >= 0.0
  {
    if held == [] then 0.0
    else SumDeclared(held[..|held| - 1], n) + Declared(held[|held| - 1].load, n)
  }

  /** What process `pid` is read to use of cores or memory; a pid the reading does not name uses nothing. */
  function Used(reading: Reading, pid: int, n: Name): (used: real)
    ensures used >= 0.0
  {
    if pid !in reading.usage then 0.0
    else match n
      case Cpu => reading.usage[pid].busy
      case Mem => reading.usage[pid].resident as real
      case Seat(_) => 0.0
  }

  function SumUsed(held: seq<Holding>, reading: Reading, n: Name): real {
    if held == [] then 0.0
    else SumUsed(held[..|held| - 1], reading, n) + Used(reading, held[|held| - 1].pid, n)
  }

  /** Declarations not taken yet, floored claim by claim. */
  function SumOwed(held: seq<Holding>, reading: Reading, n: Name): real {
    if held == [] then 0.0
    else
      var h := held[|held| - 1];
      SumOwed(held[..|held| - 1], reading, n) + Max(0.0, Declared(h.load, n) - Used(reading, h.pid, n))
  }

  /** What the asker's own claims use, up to their declarations. */
  function SumTaken(held: seq<Holding>, reading: Reading, n: Name): real {
    if held == [] then 0.0
    else
      var h := held[|held| - 1];
      SumTaken(held[..|held| - 1], reading, n) + Min(Declared(h.load, n), Used(reading, h.pid, n))
  }

  function SumSeats(held: seq<Holding>, tool: string): nat {
    if held == [] then 0
    else
      var h := held[|held| - 1];
      SumSeats(held[..|held| - 1], tool) + if tool in h.load.seats then h.load.seats[tool] else 0
  }

  predicate IsOwn(h: Holding, asker: Option<int>) {
    asker.Some? && h.pid == asker.value && !h.kept
  }

  /** The asker's un-kept claims (`mine`), or every other one. */
  function Claims(held: seq<Holding>, asker: Option<int>, mine: bool): seq<Holding> {
    if held == [] then []
    else
      var h := held[|held| - 1];
      Claims(held[..|held| - 1], asker, mine) + if IsOwn(h, asker) == mine then [h] else []
  }

  // ----- the room

  function Idle(reading: Reading, n: Name): real {
    match n
    case Cpu => reading.idle
    case Mem => reading.available as real
    case Seat(_) => 0.0
  }

  function Kept(capacity: Capacity, n: Name): real {
    match n
    case Cpu => capacity.keptCpu
    case Mem => capacity.keptMem as real
    case Seat(_) => 0.0
  }

  /** The size of `n`; a seat nobody declared counts one. */
  function Size(capacity: Capacity, n: Name): real {
    match n
    case Cpu => capacity.cpu
    case Mem => capacity.mem as real
    case Seat(s) => (if s in capacity.seats then capacity.seats[s] else 1) as real
  }

  function SeatsLeft(tool: string, capacity: Capacity, held: seq<Holding>, reading: Reading): int {
    var claimed := SumSeats(held, tool);
    var total: int := if tool in capacity.seats then capacity.seats[tool] else 1;
    if tool in capacity.blind then 0
    else if tool in capacity.watched then
      if tool in reading.unseen || tool !in reading.seatsInUse then 0
      else total - (if claimed >= reading.seatsInUse[tool] then claimed else reading.seatsInUse[tool])
    else total - claimed
  }

  /** What a new claim may take of `n` now, for the process `asker`. */
  function RoomOf(capacity: Capacity, held: seq<Holding>, reading: Reading, asker: Option<int>, n: Name): (r: real)
    ensures r >= 0.0
  {
    match n
    case Seat(s) => Max(0.0, SeatsLeft(s, capacity, held, reading) as real)
    case _ =>
      var others, own := Claims(held, asker, false), Claims(held, asker, true);
      Max(0.0, Min(Idle(reading, n) - Kept(capacity, n) - SumOwed(others, reading, n),
                   Size(capacity, n) - (SumDeclared(others, n) + SumTaken(own, reading, n))))
  }

  function HeldSeats(held: seq<Holding>): set<string> {
    set h, s | h in held && s in h.load.seats :: s
  }

  /** Cores, memory and the seats `tools`. */
  function Names(tools: set<string>): (names: set<Name>)
    ensures forall n :: n in names <==> n.Seat? ==> n.tool in tools
  {
    var seats := set s | s in tools :: Seat(s);
    assert forall n: Name :: n.Seat? ==> n == Seat(n.tool);
    {Cpu, Mem} + seats
  }

  function Room(capacity: Capacity, held: seq<Holding>, reading: Reading, seats: set<string>, asker: Option<int>)
    : (room: Vector)
    ensures forall n: Name :: (n.Seat? ==> n.tool in seats) ==>
                          Amount(room, n) == RoomOf(capacity, held, reading, asker, n)
    ensures forall s :: s in capacity.seats || (exists h :: h in held && s in h.load.seats) ==>
                          Amount(room, Seat(s)) == RoomOf(capacity, held, reading, asker, Seat(s))
  {
    var tools := capacity.seats.Keys + seats + HeldSeats(held);
    Keep(map n | n in Names(tools) :: RoomOf(capacity, held, reading, asker, n))
  }

  /** `room` with every claim's declaration of the metered names added back. */
  function AddedBack(room: Vector, held: seq<Holding>, names: set<Name>): (supply: Vector)
    ensures forall n :: Amount(supply, n) == if n in names then Amount(room, n) + SumDeclared(held, n) else 0.0
  {
    Keep(map n | n in names :: Amount(room, n) + SumDeclared(held, n))
  }

  /** The providers' supply: the OS's room for the asker and each named seat's, plus what every claim declares. */
  function Measured(capacity: Capacity, held: seq<Holding>, reading: Reading, seats: set<string>, asker: Option<int>)
    : Vector
  {
    var tools := capacity.seats.Keys + seats;
    var os := AddedBack(Room(capacity, held, reading, {}, asker), held, {Cpu, Mem});
    var counts := AddedBack(Room(capacity, held, reading, tools, None), held, Names(tools) - {Cpu, Mem});
    Plus(os, counts)
  }

  /** The seat part of the room has no asker. */
  lemma MeasuredAmount(capacity: Capacity, held: seq<Holding>, reading: Reading, seats: set<string>,
                       asker: Option<int>, n: Name)
    requires n.Seat? ==> n.tool in seats
    ensures Amount(Measured(capacity, held, reading, seats, asker), n) ==
            RoomOf(capacity, held, reading, asker, n) + SumDeclared(held, n)
  {
    var tools := capacity.seats.Keys + seats;
    if n.Seat? {
      assert n in Names(tools) - {Cpu, Mem};
      assert RoomOf(capacity, held, reading, asker, n) == RoomOf(capacity, held, reading, None, n);
    } else {
      assert n in {Cpu, Mem};
    }
  }

  function Running(held: seq<Holding>): seq<Vector> {
    if held == [] then [] else Running(held[..|held| - 1]) + [VectorOf(held[|held| - 1].load)]
  }

  lemma {:induction false} TotalOfRunning(held: seq<Holding>, n: Name)
    ensures Amount(Total(Running(held)), n) == SumDeclared(held, n)
  {
    if held != [] {
      TotalOfRunning(held[..|held| - 1], n);
      assert Running(held)[..|Running(held)| - 1] == Running(held[..|held| - 1]);
    }
  }

  /** The box decides by THE RULE on its measured supply less every held claim. */
  predicate Decides(capacity: Capacity, held: seq<Holding>, reading: Reading, demand: Vector, asker: Option<int>) {
    Admits(Measured(capacity, held, reading, SeatNames(demand), asker), demand, Running(held))
  }

  /**
   Adding every declaration to the room and subtracting every running claim gives back the room: THE RULE
   admits a demand exactly when each amount it asks is at most the room of that name.
   */
  lemma DecidesIsRoom(capacity: Capacity, held: seq<Holding>, reading: Reading, demand: Vector, asker: Option<int>)
    ensures Decides(capacity, held, reading, demand, asker) <==>
            forall n :: n in demand ==> demand[n] <= RoomOf(capacity, held, reading, asker, n)
  {
    hide Measured, RoomOf, Running, Total;
    var supply := Measured(capacity, held, reading, SeatNames(demand), asker);
    forall n | n in demand
      ensures Amount(Minus(supply, Total(Running(held))), n) == RoomOf(capacity, held, reading, asker, n)
    {
      TotalOfRunning(held, n);
      if n.Seat? { assert n.tool in SeatNames(demand); }
      MeasuredAmount(capacity, held, reading, SeatNames(demand), asker, n);
    }
  }

  // ----- the room in plain sums

  /** What claim `h` counts for against the size: its declaration, or of the asker's own un-kept claim what it uses. */
  function CountsFor(reading: Reading, asker: Option<int>, n: Name): Holding -> real {
    (h: Holding) => if asker == Some(h.pid) && !h.kept then Min(Declared(h.load, n), Used(reading, h.pid, n))
                    else Declared(h.load, n)
  }

  /** What claim `h` may still take of what is idle: its declaration beyond its use; the asker's own nothing. */
  function MayStillTake(reading: Reading, asker: Option<int>, n: Name): Holding -> real {
    (h: Holding) => if asker == Some(h.pid) && !h.kept then 0.0
                    else Max(0.0, Declared(h.load, n) - Used(reading, h.pid, n))
  }

  function Seats(tool: string): Holding -> real {
    (h: Holding) => if tool in h.load.seats then h.load.seats[tool] as real else 0.0
  }

  lemma {:induction false} SumsOfClaims(held: seq<Holding>, reading: Reading, asker: Option<int>, n: Name)
    ensures SumDeclared(Claims(held, asker, false), n) + SumTaken(Claims(held, asker, true), reading, n) ==
            Sum(held, CountsFor(reading, asker, n))
    ensures SumOwed(Claims(held, asker, false), reading, n) == Sum(held, MayStillTake(reading, asker, n))
  {
    if held == [] {
      assert Claims(held, asker, false) == [] == Claims(held, asker, true);
    } else {
      var front, h := held[..|held| - 1], held[|held| - 1];
      SumsOfClaims(front, reading, asker, n);
      ClaimsGrow(held, asker);
      assert Sum(held, CountsFor(reading, asker, n)) ==
             Sum(front, CountsFor(reading, asker, n)) + CountsFor(reading, asker, n)(h);
      assert Sum(held, MayStillTake(reading, asker, n)) ==
             Sum(front, MayStillTake(reading, asker, n)) + MayStillTake(reading, asker, n)(h);
      hide Claims, Declared, Used, Sum, SumDeclared, SumTaken, SumOwed;
      SumsGrow(Claims(front, asker, asker == Some(h.pid) && !h.kept), h, reading, n);
    }
  }

  lemma SumsGrow(claims: seq<Holding>, h: Holding, reading: Reading, n: Name)
    ensures SumDeclared(claims + [h], n) == SumDeclared(claims, n) + Declared(h.load, n)
    ensures SumTaken(claims + [h], reading, n) ==
            SumTaken(claims, reading, n) + Min(Declared(h.load, n), Used(reading, h.pid, n))
    ensures SumOwed(claims + [h], reading, n) ==
            SumOwed(claims, reading, n) + Max(0.0, Declared(h.load, n) - Used(reading, h.pid, n))
  {
    hide Declared, Used;
    assert (claims + [h])[..|claims|] == claims;
  }

  lemma ClaimsGrow(held: seq<Holding>, asker: Option<int>)
    requires held != []
    ensures var front, h := held[..|held| - 1], held[|held| - 1];
            var mine := asker == Some(h.pid) && !h.kept;
            && Claims(held, asker, mine) == Claims(front, asker, mine) + [h]
            && Claims(held, asker, !mine) == Claims(front, asker, !mine)
  {
  }

  lemma {:induction false} SeatsOfClaims(held: seq<Holding>, tool: string)
    ensures SumSeats(held, tool) as real == Sum(held, Seats(tool))
  {
    if held != [] {
      SeatsOfClaims(held[..|held| - 1], tool);
    }
  }

  /**
   THE ROOM IN PLAIN SUMS over the held claims, each counted once: of cores and of memory what is idle beyond the margin
   and what claims may still take, within the size beyond what they count for; of a seat what nobody claims or is seen
   using, one seat where none is declared, and none where it cannot be read.
   */
  lemma TheRoomInSums(capacity: Capacity, held: seq<Holding>, reading: Reading, asker: Option<int>, tool: string)
    ensures RoomOf(capacity, held, reading, asker, Cpu) ==
            Max(0.0, Min(reading.idle - capacity.keptCpu - Sum(held, MayStillTake(reading, asker, Cpu)),
                         capacity.cpu - Sum(held, CountsFor(reading, asker, Cpu))))
    ensures RoomOf(capacity, held, reading, asker, Mem) ==
            Max(0.0, Min(reading.available as real - capacity.keptMem as real -
                         Sum(held, MayStillTake(reading, asker, Mem)),
                         capacity.mem as real - Sum(held, CountsFor(reading, asker, Mem))))
    ensures var seats := if tool in capacity.seats then capacity.seats[tool] as real else 1.0;
            var claimed := Sum(held, Seats(tool));
            RoomOf(capacity, held, reading, asker, Seat(tool)) ==
            if tool in capacity.blind then 0.0
            else if tool !in capacity.watched then Max(0.0, seats - claimed)
            else if tool in reading.unseen || tool !in reading.seatsInUse then 0.0
            else Max(0.0, seats - Max(claimed, reading.seatsInUse[tool] as real))
  {
    hide Sum, CountsFor, MayStillTake, Seats, Claims, SumDeclared, SumTaken, SumOwed, SumSeats;
    SumsOfClaims(held, reading, asker, Cpu);
    SumsOfClaims(held, reading, asker, Mem);
    SeatsOfClaims(held, tool);
    OsRoomIs(capacity, held, reading, asker, Cpu);
    OsRoomIs(capacity, held, reading, asker, Mem);
    hide RoomOf;
    SeatRoomIs(capacity, held, reading, asker, tool);
  }

  lemma OsRoomIs(capacity: Capacity, held: seq<Holding>, reading: Reading, asker: Option<int>, n: Name)
    requires !n.Seat?
    ensures var others, own := Claims(held, asker, false), Claims(held, asker, true);
            RoomOf(capacity, held, reading, asker, n) ==
            Max(0.0, Min(Idle(reading, n) - Kept(capacity, n) - SumOwed(others, reading, n),
                         Size(capacity, n) - (SumDeclared(others, n) + SumTaken(own, reading, n))))
  {
    hide SumOwed, SumDeclared, SumTaken, Claims;
  }

  lemma SeatRoomIs(capacity: Capacity, held: seq<Holding>, reading: Reading, asker: Option<int>, tool: string)
    ensures RoomOf(capacity, held, reading, asker, Seat(tool)) ==
            Max(0.0, SeatsLeft(tool, capacity, held, reading) as real)
  {
  }
}
