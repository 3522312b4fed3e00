/**
 Where the queue's documented promises stop: concrete ledgers of memory claims, ten bytes in all, on which a
 stronger reading of the rule fails, and the exact guard that makes it fail.
 */
module BoxWitnesses {
  import opened Options
  import opened Vectors
  import opened Supply
  import opened Order
  import opened World
  import opened Stale
  import opened Ledger
  import opened BoxRuns
  import opened Starvation

  const BOX := Capacity(0.0, 10, map[], 0.0, 0, {}, {})
  const WORLD := World(0.0, 10)
  const QUIET := Reading(0.0, 10, map[], map[], {})
  const ALIVE := Liveness({}, {})

  function Bytes(mem: nat): Load {
    Load(0, mem, map[])
  }

  function Asking(mem: nat): Vector
    requires mem > 0
  {
    map[Mem := mem as real]
  }

  function Claim(id: nat, mem: nat, deadline: real): Holding {
    Holding(id, id, Bytes(mem), deadline, 0.0, "", false, false)
  }

  lemma {:induction false} QuietIsSound(held: seq<Holding>)
    ensures SumUsed(held, QUIET, Cpu) == 0.0 && SumResident(held, QUIET) == 0
    ensures Sound(WORLD, held, QUIET)
  {
    if held != [] {
      QuietIsSound(held[..|held| - 1]);
      assert forall h :: h in held ==> Used(QUIET, h.pid, Cpu) == 0.0 == Used(QUIET, h.pid, Mem);
    }
  }

  lemma AskingIsRow(mem: nat)
    requires mem > 0
    ensures VectorOf(Bytes(mem)) == Asking(mem) && LoadOf(Asking(mem)) == Bytes(mem)
  {
    assert forall n :: Amount(VectorOf(Bytes(mem)), n) == Amount(Asking(mem), n);
    assert VectorOf(Bytes(mem)).Keys == Asking(mem).Keys by {
      forall n: Name
        ensures n in VectorOf(Bytes(mem)) <==> n in Asking(mem)
      {
        assert Amount(VectorOf(Bytes(mem)), n) == Amount(Asking(mem), n);
      }
    }
    assert SeatNames(Asking(mem)) == {};
  }

  /** On the quiet box fitting is counting bytes. */
  lemma FitsIsCounting(held: seq<Holding>, mem: nat, moment: real)
    requires mem > 0
    ensures Fits(BOX, held, QUIET, Asking(mem)) <==> mem as real + SumDeclared(held, Mem) <= 10.0
    ensures FitsAfter(BOX, held, QUIET, Asking(mem), moment) <==>
            mem as real + SumDeclared(Stay(held, moment), Mem) <= 10.0
  {
    hide Fits, FitsAfter, Sound;
    QuietIsSound(held);
    FitsIsSpare(BOX, WORLD, held, QUIET, Asking(mem));
    FitsAfterIsSpare(BOX, WORLD, held, QUIET, Asking(mem), moment);
  }

  lemma Nothing(moment: real)
    ensures SumDeclared([], Mem) == 0.0 && Stay([], moment) == []
  {
  }

  lemma OneClaim(a: Holding, moment: real)
    ensures SumDeclared([a], Mem) == a.load.mem as real
    ensures Stay([a], moment) == if a.deadline > moment then [a] else []
    ensures forall m :: IsDeadline([a], m) <==> m == a.deadline
  {
    assert [] + [a] == [a];
    assert a in [a];
  }

  lemma TwoClaims(a: Holding, b: Holding, moment: real)
    ensures SumDeclared([a, b], Mem) == (a.load.mem + b.load.mem) as real
    ensures Stay([a, b], moment) ==
            (if a.deadline > moment then [a] else []) + (if b.deadline > moment then [b] else [])
    ensures SumDeclared(Stay([a, b], moment), Mem) ==
            ((if a.deadline > moment then a.load.mem else 0) + (if b.deadline > moment then b.load.mem else 0)) as real
    ensures forall m :: IsDeadline([a, b], m) <==> m == a.deadline || m == b.deadline
  {
    hide SumDeclared, Stay;
    Nothing(moment);
    OneClaim(a, moment);
    OneClaim(b, moment);
    assert [a] + [b] == [a, b];
    SplitsAppend([a], b, moment);
    DeclaredAppends([a], b, Mem);
    DeclaredAppends(Stay([a], moment), b, Mem);
    assert a in [a, b] && b in [a, b];
  }

  /** The earliest start on two claims, the first ending sooner. */
  lemma StartOnTwo(a: Holding, b: Holding, mem: nat, now: real)
    requires mem > 0 && a.deadline <= b.deadline
    ensures Earliest(BOX, [a, b], QUIET, Asking(mem), now) ==
            if mem + a.load.mem + b.load.mem <= 10 then At(now)
            else if a.deadline < b.deadline && mem + b.load.mem <= 10 then At(a.deadline)
            else if mem <= 10 then At(b.deadline)
            else Never
  {
    hide Fits, FitsAfter, Earliest, Stay, SumDeclared;
    EarliestIsLeast(BOX, [a, b], QUIET, Asking(mem), now);
    FitsIsCounting([a, b], mem, a.deadline);
    FitsIsCounting([a, b], mem, b.deadline);
    TwoClaims(a, b, a.deadline);
    TwoClaims(a, b, b.deadline);
  }

  /**
   THE STRONGER READING FAILS. Read as "no admission ever moves a waiting ticket's earliest start", the rule is
   false: only later tickets are checked against earlier ones. Here the first ticket is admitted beside a claim of
   five bytes ending at 100, and the start of the second, which asks six, moves from 100 to 1000.
   */
  lemma AnEarlierTicketMayDelayALaterOne()
    ensures var held, first := [Claim(1, 5, 100.0)], Claim(2, 5, 1000.0);
            var queue := [Ticket(1, 2, 500.0, Asks(Bytes(5))), Ticket(2, 3, 500.0, Asks(Bytes(6)))];
            && Fits(BOX, held, QUIET, Asking(5))
            && BlockedBy(queue, 1, first, BOX, held, QUIET, 0.0).None?
            && Earliest(BOX, held, QUIET, Asking(6), 0.0) == At(100.0)
            && Earliest(BOX, held + [first], QUIET, Asking(6), 0.0) == At(1000.0)
  {
    hide Fits, FitsAfter, Earliest, Blocks, SumDeclared, Stay;
    Nothing(100.0);
    var held, first := Claim(1, 5, 100.0), Claim(2, 5, 1000.0);
    OneClaim(held, 100.0);
    FitsIsCounting([held], 5, 100.0);
    FitsIsCounting([held], 6, 100.0);
    EarliestIsLeast(BOX, [held], QUIET, Asking(6), 0.0);
    assert [held] + [first] == [held, first];
    StartOnTwo(held, first, 6, 0.0);
    var queue := [Ticket(1, 2, 500.0, Asks(Bytes(5))), Ticket(2, 3, 500.0, Asks(Bytes(6)))];
    assert queue[1..] == [Ticket(2, 3, 500.0, Asks(Bytes(6)))];
  }

  /**
   A ROW PAST ITS DEADLINE OPENS THE RULE. The claim of four bytes was due at 100 and is honoured until 160. At 101
   the head, asking six, fits; a later ticket asking four for another 1000 seconds is not ordered behind it, because
   the head's start beside it still reads as 100; admitted, it keeps the head out although the head's start had come.
   */
  lemma AnOverdueRowLetsAJumperThrough()
    ensures var overdue, jumper := Claim(2, 4, 100.0), Claim(4, 4, 1101.0);
            && overdue.deadline + GRACE >= 101.0
            && Earliest(BOX, [overdue], QUIET, Asking(6), 101.0) == At(101.0)
            && !Blocks(Asks(Bytes(6)), jumper, BOX, [overdue], QUIET, 101.0)
            && Fits(BOX, [overdue], QUIET, Asking(4))
            && !Fits(BOX, [overdue, jumper], QUIET, Asking(6))
  {
    hide Fits, FitsAfter, Earliest, SumDeclared, Stay, VectorOf, LoadOf;
    Nothing(100.0);
    var overdue, jumper := Claim(2, 4, 100.0), Claim(4, 4, 1101.0);
    OneClaim(overdue, 100.0);
    TwoClaims(overdue, jumper, 100.0);
    FitsIsCounting([overdue], 4, 100.0);
    FitsIsCounting([overdue], 6, 100.0);
    FitsIsCounting([overdue, jumper], 6, 100.0);
    EarliestIsLeast(BOX, [overdue], QUIET, Asking(6), 101.0);
    assert [overdue] + [jumper] == [overdue, jumper];
    StartOnTwo(overdue, jumper, 6, 101.0);
    AskingIsRow(6);
  }

  const HEAD := Ticket(1, 3, 500.0, Asks(Bytes(6)))
  const BEHIND := Ticket(2, 4, 500.0, Asks(Bytes(4)))
  const FIRST := Box([Claim(1, 5, 10.0), Claim(2, 4, 100.0)], [HEAD, BEHIND], 0.0, 2, 2)
  const JUMPS := Tries(2, 4, Asking(4), 1000, "j", QUIET, ALIVE)
  const RUN := [Ticks(101.0), JUMPS, Ticks(102.0)]
  const JUMPER := Holding(3, 4, Bytes(4), 1101.0, 101.0, "j", false, false)

  lemma SelectTwo<T>(a: T, b: T, keep: T -> bool)
    ensures Select([a], keep) == if keep(a) then [a] else []
    ensures Select([a, b], keep) == (if keep(a) then [a] else []) + (if keep(b) then [b] else [])
  {
    assert [a, b][..1] == [a] && [a][..0] == [];
    assert Select([a], keep) == if keep(a) then [a] else [];
  }

  /** At 101 the first claim, due at 10, is reaped and the second, due at 100, is not; the jumper takes its four. */
  lemma TheJump()
    ensures var at := Tick(FIRST, 101.0);
            && Reap(at, ALIVE) == at.(claims := [Claim(2, 4, 100.0)])
            && Step(BOX, at, JUMPS) == Box([Claim(2, 4, 100.0), JUMPER], [HEAD], 101.0, 3, 2)
  {
    hide Fits, Decides, Earliest, Blocks, LoadOf, Select;
    var at, overdue := Tick(FIRST, 101.0), Claim(2, 4, 100.0);
    SelectTwo(Claim(1, 5, 10.0), overdue, Surviving(101.0, ALIVE));
    SelectTwo(HEAD, BEHIND, Waiting(101.0, ALIVE));
    SelectTwo(HEAD, BEHIND, OtherTicket(2));
    var reaped := Reap(at, ALIVE);
    assert reaped == at.(claims := [overdue]);
    assert Decides(BOX, [overdue], QUIET, Asking(4), Some(4))
           && !Blocks(HEAD.asked, JUMPER, BOX, [overdue], QUIET, 101.0)
    by { TheJumperPasses(); }
    assert [HEAD, BEHIND][1..] == [BEHIND] && [BEHIND][1..] == [];
    assert BlockedBy([BEHIND], 2, JUMPER, BOX, [overdue], QUIET, 101.0).None?;
    assert BlockedBy([HEAD, BEHIND], 2, JUMPER, BOX, [overdue], QUIET, 101.0).None?;
    AskingIsRow(4);
    assert RowOf(reaped, 4, Asking(4), 1000, "j") == JUMPER;
  }

  lemma TheJumperPasses()
    ensures Decides(BOX, [Claim(2, 4, 100.0)], QUIET, Asking(4), Some(4))
    ensures !Blocks(HEAD.asked, JUMPER, BOX, [Claim(2, 4, 100.0)], QUIET, 101.0)
  {
    hide Decides, Earliest, VectorOf, SumDeclared, Stay, Fits, FitsAfter;
    var overdue := Claim(2, 4, 100.0);
    Nothing(100.0);
    OneClaim(overdue, 100.0);
    FitsIsCounting([overdue], 4, 100.0);
    FitsIsCounting([overdue], 6, 100.0);
    DecidesForANewcomer(BOX, [overdue], QUIET, Asking(4), 4);
    EarliestIsLeast(BOX, [overdue], QUIET, Asking(6), 101.0);
    assert [overdue] + [JUMPER] == [overdue, JUMPER];
    StartOnTwo(overdue, JUMPER, 6, 101.0);
    AskingIsRow(6);
  }

  /**
   THE BOUND NEEDS ITS TAKEN FITS. The head's start is 10 when it becomes head, and the run is orderly; yet its
   look at 102, more than a grace after 10, finds no room, because the jumper came in at 101 over an overdue row.
   */
  lemma AGracePastTheStartIsNotEnough()
    ensures Earliest(BOX, FIRST.claims, QUIET, Asking(6), 0.0) == At(10.0)
    ensures OrderlyRun(BOX, WORLD, FIRST, HEAD, RUN)
    ensures var end := Run(BOX, FIRST, RUN);
            && end.now > 10.0 + GRACE
            && Try(end, 1, 3, Asking(6), 100, "h", BOX, QUIET, ALIVE).1 == NoRoom
    ensures Bound(BOX, WORLD, FIRST, Asking(6), RUN, 10.0) == 101.0
  {
    hide Earliest, Decides, Blocks, LoadOf, Select, Reap, Sound, Contends, Spare;
    var a, overdue := Claim(1, 5, 10.0), Claim(2, 4, 100.0);
    StartOnTwo(a, overdue, 6, 0.0);
    var b1 := Tick(FIRST, 101.0);
    TheJump();
    var b2 := Box([overdue, JUMPER], [HEAD], 101.0, 3, 2);
    var b3 := Tick(b2, 102.0);
    QuietIsSound([overdue]);
    assert Step(BOX, FIRST, RUN[0]) == b1 && Step(BOX, b1, RUN[1]) == b2 && Step(BOX, b2, RUN[2]) == b3;
    assert RUN[1..] == [JUMPS, Ticks(102.0)] && [JUMPS, Ticks(102.0)][1..] == [Ticks(102.0)];
    assert Run(BOX, b2, [Ticks(102.0)]) == b3 by { assert [Ticks(102.0)][1..] == []; }
    assert Run(BOX, b1, [JUMPS, Ticks(102.0)]) == b3;
    assert Orderly(BOX, WORLD, FIRST, HEAD, RUN[0]) && Orderly(BOX, WORLD, b2, HEAD, RUN[2]);
    assert OrderlyTry(BOX, WORLD, b1, HEAD, JUMPS) by { assert BEHIND in b1.tickets; }
    assert OrderlyRun(BOX, WORLD, b2, HEAD, [Ticks(102.0)]) by { assert [Ticks(102.0)][1..] == []; }
    assert OrderlyRun(BOX, WORLD, b1, HEAD, [JUMPS, Ticks(102.0)]);
    TheHeadFindsNoRoom(b3);
    TheJumpTakesTheFit();
    assert Bound(BOX, WORLD, b2, Asking(6), [Ticks(102.0)], 101.0) == 101.0 by { assert [Ticks(102.0)][1..] == []; }
    assert Bound(BOX, WORLD, b1, Asking(6), [JUMPS, Ticks(102.0)], 10.0) == 101.0;
  }

  lemma TheJumpTakesTheFit()
    ensures TakesTheFit(BOX, WORLD, Tick(FIRST, 101.0), Asking(6), JUMPS, 10.0)
  {
    hide Decision, Reap, Fits, FitsAfter, Sound, SumDeclared, Stay, LoadOf;
    var at, overdue := Tick(FIRST, 101.0), Claim(2, 4, 100.0);
    TheJump();
    OneClaim(overdue, 10.0);
    assert DueSince([overdue], 10.0, 101.0) by { assert overdue in [overdue]; }
    AskingIsRow(4);
    assert RowOf(at.(claims := [overdue]), 4, Asking(4), 1000, "j") == JUMPER;
    assert [overdue] + [JUMPER] == [overdue, JUMPER];
    TryLeavesClaims(BOX, at, JUMPS);
    assert [overdue, JUMPER] != [overdue];
    OneClaim(overdue, 0.0);
    TwoClaims(overdue, JUMPER, 0.0);
    QuietIsSound([overdue]);
    QuietIsSound([overdue, JUMPER]);
    FitsIsCounting([overdue], 6, 0.0);
    FitsIsCounting([overdue, JUMPER], 6, 0.0);
    FitsIsSpare(BOX, WORLD, [overdue], QUIET, Asking(6));
    FitsIsSpare(BOX, WORLD, [overdue, JUMPER], QUIET, Asking(6));
  }

  lemma TheHeadFindsNoRoom(end: Box)
    requires end == Box([Claim(2, 4, 100.0), JUMPER], [HEAD], 102.0, 3, 2)
    ensures Try(end, 1, 3, Asking(6), 100, "h", BOX, QUIET, ALIVE).1 == NoRoom
  {
    hide Decides, Select, LoadOf, BlockedBy;
    SelectTwo(Claim(2, 4, 100.0), JUMPER, Surviving(102.0, ALIVE));
    assert [Claim(2, 4, 100.0)] + [JUMPER] == [Claim(2, 4, 100.0), JUMPER];
    assert Reap(end, ALIVE).claims == [Claim(2, 4, 100.0), JUMPER];
    TheHeadDoesNotFit();
  }

  lemma TheHeadDoesNotFit()
    ensures !Decides(BOX, [Claim(2, 4, 100.0), JUMPER], QUIET, Asking(6), Some(3))
  {
    hide Decides, Fits, SumDeclared, Stay;
    TwoClaims(Claim(2, 4, 100.0), JUMPER, 0.0);
    FitsIsCounting([Claim(2, 4, 100.0), JUMPER], 6, 0.0);
    DecidesForANewcomer(BOX, [Claim(2, 4, 100.0), JUMPER], QUIET, Asking(6), 3);
  }

  /** The reading a demand of seats alone is decided on: the OS is not sampled. */
  const NO_SHARE := Reading(0.0, 0, map[], map[], {})

  lemma {:induction false} NoShareShowsNoUse(held: seq<Holding>)
    ensures SumUsed(held, NO_SHARE, Cpu) == 0.0 && SumResident(held, NO_SHARE) == 0
  {
    if held != [] {
      NoShareShowsNoUse(held[..|held| - 1]);
    }
  }

  lemma NoShareHasNoRoom(capacity: Capacity, held: seq<Holding>, n: Name)
    requires n == Cpu || n == Mem
    requires capacity.keptCpu >= 0.0 && capacity.keptMem >= 0
    ensures RoomOf(capacity, held, NO_SHARE, None, n) == 0.0
  {
    OsRoom(capacity, held, NO_SHARE, n);
    hide RoomOf, SumOwed, SumDeclared;
    assert SumOwed(held, NO_SHARE, n) >= 0.0 by { OwedIsNonNegative(held, n); }
  }

  lemma {:induction false} OwedIsNonNegative(held: seq<Holding>, n: Name)
    ensures SumOwed(held, NO_SHARE, n) >= 0.0
  {
    if held != [] {
      OwedIsNonNegative(held[..|held| - 1], n);
    }
  }

  /**
   A SEATS-ONLY JUMPER IS UNSEEN. On the reading it is decided on, an earlier ticket that wants any core or memory
   has no start at all, so it orders no jumper behind it -- not even one contending for the same seat.
   */
  lemma SeatsOnlyJumperIsUnseen(capacity: Capacity, held: seq<Holding>, wanted: Load, jumper: Holding, now: real)
    requires capacity.keptCpu >= 0.0 && capacity.keptMem >= 0
    requires wanted.cpu > 0 || wanted.mem > 0
    ensures Earliest(capacity, held, NO_SHARE, VectorOf(wanted), now) == Never
    ensures !Blocks(Asks(wanted), jumper, capacity, held, NO_SHARE, now)
  {
    hide Earliest;
    NeverStartsUnsampled(capacity, held, wanted, now);
    NeverStartsUnsampled(capacity, held + [jumper], wanted, now);
  }

  lemma NeverStartsUnsampled(capacity: Capacity, held: seq<Holding>, wanted: Load, now: real)
    requires capacity.keptCpu >= 0.0 && capacity.keptMem >= 0
    requires wanted.cpu > 0 || wanted.mem > 0
    ensures Earliest(capacity, held, NO_SHARE, VectorOf(wanted), now) == Never
  {
    hide Fits, FitsAfter, Earliest, VectorOf;
    var start := Earliest(capacity, held, NO_SHARE, VectorOf(wanted), now);
    EarliestIsLeast(capacity, held, NO_SHARE, VectorOf(wanted), now);
    NothingFitsUnsampled(capacity, held, wanted);
    if start.At? {
      ReleasedNothing(capacity, held, wanted, start.moment);
      NothingFitsUnsampled(capacity, Stay(held, start.moment), wanted);
    }
  }

  lemma ReleasedNothing(capacity: Capacity, held: seq<Holding>, wanted: Load, moment: real)
    ensures FitsAfter(capacity, held, NO_SHARE, VectorOf(wanted), moment) ==
            Fits(capacity, Stay(held, moment), NO_SHARE, VectorOf(wanted))
  {
    hide Fits;
    NoShareShowsNoUse(Gone(held, moment));
    assert Released(NO_SHARE, Gone(held, moment)) == NO_SHARE;
  }

  lemma NothingFitsUnsampled(capacity: Capacity, held: seq<Holding>, wanted: Load)
    requires capacity.keptCpu >= 0.0 && capacity.keptMem >= 0
    requires wanted.cpu > 0 || wanted.mem > 0
    ensures !Fits(capacity, held, NO_SHARE, VectorOf(wanted))
  {
    hide RoomOf, Decides;
    DecidesIsRoom(capacity, held, NO_SHARE, VectorOf(wanted), None);
    NoShareHasNoRoom(capacity, held, Cpu);
    NoShareHasNoRoom(capacity, held, Mem);
    assert wanted.cpu > 0 ==> Amount(VectorOf(wanted), Cpu) > 0.0;
    assert wanted.mem > 0 ==> Amount(VectorOf(wanted), Mem) > 0.0;
  }

  const ONE_SEAT := Load(0, 0, map["t" := 1])
  const SEATED := Load(0, 1, map["t" := 1])
  const WANTS: Vector := map[Mem := 1.0, Seat("t") := 1.0]
  const SIT: Vector := map[Seat("t") := 1.0]
  const SITTER := Holding(1, 4, ONE_SEAT, 1000.0, 0.0, "s", false, false)
  const WAITS := Ticket(1, 3, 500.0, Asks(SEATED))
  const SITS_NEXT := Ticket(2, 4, 500.0, Asks(ONE_SEAT))
  const EMPTY := Box([], [WAITS, SITS_NEXT], 0.0, 0, 2)

  /**
   A SEATS-ONLY JUMPER DELAYS THE HEAD. Nothing is held and the head, asking a byte and the one seat of a tool, could
   start now; a later ticket asking only that seat is admitted past it for 1000 seconds, and the head's start is 1000.
   */
  lemma ASeatsOnlyJumperDelaysTheHead()
    ensures IsHead(EMPTY, WAITS) && Contends(ONE_SEAT, WAITS.asked)
    ensures Earliest(BOX, EMPTY.claims, QUIET, VectorOf(SEATED), 0.0) == At(0.0)
    ensures var e := Tries(2, 4, SIT, 1000, "s", NO_SHARE, ALIVE);
            && OutcomeOf(BOX, EMPTY, e).Admitted?
            && WAITS in Step(BOX, EMPTY, e).tickets
            && Earliest(BOX, Step(BOX, EMPTY, e).claims, QUIET, VectorOf(SEATED), 0.0) == At(1000.0)
  {
    hide Decides, Blocks, Earliest, LoadOf, VectorOf, Select, Fits;
    SelectTwo(WAITS, SITS_NEXT, Waiting(0.0, ALIVE));
    SelectTwo(WAITS, SITS_NEXT, OtherTicket(2));
    assert Reap(EMPTY, ALIVE) == EMPTY by { NothingSelected(Surviving(0.0, ALIVE)); }
    assert "t" in ONE_SEAT.seats && "t" in SEATED.seats;
    SeatRows();
    SitterPasses();
    HeadBesideTheSitter();
    assert EMPTY.tickets[1..] == [SITS_NEXT] && [SITS_NEXT][1..] == [];
    assert BlockedBy([SITS_NEXT], 2, SITTER, BOX, [], NO_SHARE, 0.0).None?;
    assert BlockedBy(EMPTY.tickets, 2, SITTER, BOX, [], NO_SHARE, 0.0).None?;
    assert [] + [SITTER] == [SITTER];
  }

  lemma NothingSelected(keep: Holding -> bool)
    ensures Select([], keep) == []
  {
  }

  lemma SeatRows()
    ensures LoadOf(SIT) == ONE_SEAT && VectorOf(SEATED) == WANTS
  {
    SeatRow();
    hide VectorOf, LoadOf;
    assert forall n :: Amount(WANTS, n) == Declared(SEATED, n);
    SameAmounts(VectorOf(SEATED), WANTS);
  }

  lemma SeatRow()
    ensures LoadOf(SIT) == ONE_SEAT
  {
    assert SeatNames(SIT) == {"t"};
    assert Amount(SIT, Seat("t")) == 1.0;
  }

  lemma SitterPasses()
    ensures Decides(BOX, [], NO_SHARE, SIT, Some(4))
    ensures !Blocks(WAITS.asked, SITTER, BOX, [], NO_SHARE, 0.0)
  {
    hide Decides, Blocks, Fits, Sound;
    DecidesForANewcomer(BOX, [], NO_SHARE, SIT, 4);
    FitsIsSpare(BOX, WORLD, [], NO_SHARE, SIT);
    SeatsOnlyJumperIsUnseen(BOX, [], SEATED, SITTER, 0.0);
  }

  lemma HeadBesideTheSitter()
    ensures Earliest(BOX, [], QUIET, WANTS, 0.0) == At(0.0)
    ensures Earliest(BOX, [SITTER], QUIET, WANTS, 0.0) == At(1000.0)
  {
    hide Fits, FitsAfter, Sound, Earliest;
    QuietIsSound([]);
    QuietIsSound([SITTER]);
    OneSeatTaken();
    FitsIsSpare(BOX, WORLD, [], QUIET, WANTS);
    FitsIsSpare(BOX, WORLD, [SITTER], QUIET, WANTS);
    FitsAfterIsSpare(BOX, WORLD, [SITTER], QUIET, WANTS, 1000.0);
    EarliestIsLeast(BOX, [], QUIET, WANTS, 0.0);
    EarliestIsLeast(BOX, [SITTER], QUIET, WANTS, 0.0);
    OneClaim(SITTER, 1000.0);
  }

  lemma OneSeatTaken()
    ensures Spare(BOX, WORLD, [], WANTS) && !Spare(BOX, WORLD, [SITTER], WANTS)
    ensures SumDeclared([SITTER], Seat("t")) == 1.0
  {
    assert [SITTER][..0] == [];
    assert SumDeclared([SITTER], Seat("t")) == 1.0;
    assert Seat("t") in WANTS;
  }

  /**
   A ROW LOSES A FRACTION OF A BYTE: a bookable demand's row asks exactly what it does if and only if its memory is
   a whole number of bytes; otherwise the queue protects the start of a smaller demand than the one it decides.
   */
  lemma RowIsExactForWholeBytes(demand: Vector)
    requires Checked(demand)
    ensures Declared(LoadOf(demand), Mem) == Amount(demand, Mem) <==> WholeBytes(demand)
    ensures Declared(LoadOf(demand), Mem) > Amount(demand, Mem) - 1.0
  {
  }

  /** With nine and a half bytes asked of nine free, the row's start is now and the demand's own is later. */
  lemma AFractionIsNotProtected()
    ensures var held, demand: Vector := [Claim(1, 1, 100.0)], map[Mem := 9.5];
            && Earliest(BOX, held, QUIET, VectorOf(LoadOf(demand)), 0.0) == At(0.0)
            && !Fits(BOX, held, QUIET, demand)
  {
    hide Fits, FitsAfter, Earliest, Sound, SumDeclared, Stay, LoadOf, VectorOf;
    var held, demand: Vector := [Claim(1, 1, 100.0)], map[Mem := 9.5];
    OneClaim(held[0], 0.0);
    NineAndAHalf(demand);
    AskingIsRow(9);
    FitsIsCounting(held, 9, 0.0);
    EarliestIsLeast(BOX, held, QUIET, Asking(9), 0.0);
    QuietIsSound(held);
    FitsIsSpare(BOX, WORLD, held, QUIET, demand);
    assert demand[Mem] + SumDeclared(held, Mem) > Lent(BOX, WORLD, Mem);
  }

  lemma NineAndAHalf(demand: Vector)
    requires demand == map[Mem := 9.5]
    ensures LoadOf(demand) == Bytes(9)
  {
    assert SeatNames(demand) == {};
    assert (9.5).Floor == 9;
  }

  /**
   A HOLDER'S NESTED ASK MAY PASS THE SIZE: its own claim counts only for what it uses, so six idle bytes of the
   asker leave room for six more of the ten.
   */
  lemma AHolderMayOverCommit()
    ensures var held := [Claim(1, 6, 100.0)];
            && Decides(BOX, held, QUIET, Asking(6), Some(1))
            && !Decides(BOX, held, QUIET, Asking(6), Some(2))
            && SumDeclared(held + [Claim(2, 6, 100.0)], Mem) > Size(BOX, Mem)
  {
    hide Decides, RoomOf, SumDeclared, Stay;
    var h := Claim(1, 6, 100.0);
    DecidesIsRoom(BOX, [h], QUIET, Asking(6), Some(1));
    DecidesIsRoom(BOX, [h], QUIET, Asking(6), Some(2));
    IdleOwnClaim(h);
    TwoClaims(h, Claim(2, 6, 100.0), 0.0);
    assert [h] + [Claim(2, 6, 100.0)] == [h, Claim(2, 6, 100.0)];
  }

  lemma IdleOwnClaim(h: Holding)
    requires h == Claim(1, 6, 100.0)
    ensures RoomOf(BOX, [h], QUIET, Some(1), Mem) == 10.0
    ensures RoomOf(BOX, [h], QUIET, Some(2), Mem) == 4.0
  {
    ClaimsOfOne(h, Some(1));
    ClaimsOfOne(h, Some(2));
    assert [h][..0] == [] && [h][0] == h;
    assert SumDeclared([h], Mem) == 6.0 == SumOwed([h], QUIET, Mem);
    assert SumTaken([h], QUIET, Mem) == 0.0 == SumTaken([], QUIET, Mem);
    assert SumDeclared([], Mem) == 0.0 == SumOwed([], QUIET, Mem);
    hide Claims, SumDeclared, SumOwed, SumTaken;
  }

  lemma ClaimsOfOne(h: Holding, asker: Option<int>)
    ensures Claims([h], asker, true) == if IsOwn(h, asker) then [h] else []
    ensures Claims([h], asker, false) == if IsOwn(h, asker) then [] else [h]
  {
    assert [h][..0] == [] && [] + [h] == [h];
  }

  /**
   A GROWING HOLDER IS LENT MORE. Between the reading and the lock a process's own claim grew from nothing to its six
   bytes; both readings are true, yet its nested ask is lent ten on the stale one and four on the current one.
   */
  lemma AGrowingHolderIsLentMore()
    ensures var held, current := [Claim(1, 6, 100.0)], Reading(0.0, 4, map[1 := Usage(6, 0.0)], map[], {});
            && Sound(WORLD, held, QUIET) && Sound(WORLD, held, current)
            && !OwnReadNoLess(held, QUIET, current, Some(1), Mem)
            && RoomOf(BOX, held, QUIET, Some(1), Mem) == 10.0
            && RoomOf(BOX, held, current, Some(1), Mem) == 4.0
  {
    hide RoomOf, SumTaken, Claims, Sound, OwnReadNoLess, IsOwn;
    var h, current := Claim(1, 6, 100.0), Reading(0.0, 4, map[1 := Usage(6, 0.0)], map[], {});
    QuietIsSound([h]);
    GrownIsSound(h, current);
    IdleOwnClaim(h);
    TheGrownRoom(h, current);
  }

  lemma TheGrownRoom(h: Holding, current: Reading)
    requires h == Claim(1, 6, 100.0) && current == Reading(0.0, 4, map[1 := Usage(6, 0.0)], map[], {})
    ensures !OwnReadNoLess([h], QUIET, current, Some(1), Mem)
    ensures RoomOf(BOX, [h], current, Some(1), Mem) == 4.0
  {
    hide RoomOf, SumDeclared, SumTaken, Claims, Sound;
    GrownIsSound(h, current);
    CurrentRoomFor(BOX, WORLD, [h], current, Some(1), Mem);
    ClaimsOfOne(h, Some(1));
    assert IsOwn(h, Some(1));
    TakenOfOne(h, current);
    TakenOfOne(h, QUIET);
    assert Used(current, 1, Mem) == 6.0 && Used(QUIET, 1, Mem) == 0.0;
  }

  lemma GrownIsSound(h: Holding, current: Reading)
    requires h == Claim(1, 6, 100.0) && current == Reading(0.0, 4, map[1 := Usage(6, 0.0)], map[], {})
    ensures Sound(WORLD, [h], current)
  {
    assert [h][..0] == [];
    assert SumUsed([h], current, Cpu) == 0.0;
    assert SumResident([h], current) == 6;
  }

  lemma TakenOfOne(h: Holding, reading: Reading)
    ensures SumTaken([h], reading, Mem) == Min(Declared(h.load, Mem), Used(reading, h.pid, Mem))
    ensures SumDeclared([], Mem) == 0.0
  {
    assert [h][..0] == [];
    assert SumTaken([], reading, Mem) == 0.0;
  }

  /**
   A STALE READING PROTECTS LESS. The reading still shows four bytes of a claim that has left, so on it a waiting
   ticket asking ten never fits and orders nobody behind it, though on a current reading its start is 100. When a
   reading still protects is Stale.StillSoundExactly.
   */
  lemma AStaleReadingDropsProtection()
    ensures var stale := Reading(0.0, 6, map[9 := Usage(4, 0.0)], map[], {});
            var held, jumper := [Claim(1, 5, 100.0)], Claim(2, 1, 1000.0);
            && Earliest(BOX, held, QUIET, Asking(10), 0.0) == At(100.0)
            && Earliest(BOX, held + [jumper], QUIET, Asking(10), 0.0) == At(1000.0)
            && !Blocks(Asks(Bytes(10)), jumper, BOX, held, stale, 0.0)
            && Fits(BOX, held, stale, Asking(1))
  {
    hide Fits, FitsAfter, Earliest, Sound, SumDeclared, Stay, VectorOf, LoadOf;
    Nothing(100.0);
    var stale := Reading(0.0, 6, map[9 := Usage(4, 0.0)], map[], {});
    var leftover := World(0.0, 6);
    var h, jumper := Claim(1, 5, 100.0), Claim(2, 1, 1000.0);
    OneClaim(h, 100.0);
    FitsIsCounting([h], 10, 100.0);
    EarliestIsLeast(BOX, [h], QUIET, Asking(10), 0.0);
    assert [h] + [jumper] == [h, jumper];
    StartOnTwo(h, jumper, 10, 0.0);
    AskingIsRow(10);
    NoUseOfTheirs([h], stale, leftover);
    NoUseOfTheirs([h, jumper], stale, leftover);
    FitsIsSpare(BOX, leftover, [h], stale, Asking(1));
    forall claims | claims == [h] || claims == [h, jumper]
      ensures Earliest(BOX, claims, stale, Asking(10), 0.0) == Never
    {
      EarliestIsLeast(BOX, claims, stale, Asking(10), 0.0);
      FitsIsSpare(BOX, leftover, claims, stale, Asking(10));
      forall m
        ensures !FitsAfter(BOX, claims, stale, Asking(10), m)
      {
        FitsAfterIsSpare(BOX, leftover, claims, stale, Asking(10), m);
      }
    }
  }

  lemma {:induction false} NoUseOfTheirs(held: seq<Holding>, stale: Reading, leftover: World)
    requires stale == Reading(0.0, 6, map[9 := Usage(4, 0.0)], map[], {}) && leftover == World(0.0, 6)
    requires forall h :: h in held ==> h.pid != 9
    ensures SumUsed(held, stale, Cpu) == 0.0 && SumResident(held, stale) == 0
    ensures Sound(leftover, held, stale)
  {
    if held != [] {
      assert held[|held| - 1] in held;
      NoUseOfTheirs(held[..|held| - 1], stale, leftover);
    }
  }
}
