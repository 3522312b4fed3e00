/**
 The bound on the head of the queue: how long the first waiting ticket may wait while others keep arriving, being
 admitted past it, leaving and being reaped, in a closed world with current readings.
 */
module Starvation {
  import opened Options
  import opened Vectors
  import opened Supply
  import opened Order
  import opened World
  import opened Ledger
  import opened BoxRuns

  predicate SeatsAlone(demand: Vector) {
    Cpu !in demand && Mem !in demand
  }

  /** `head` is the first ticket of the queue. */
  predicate IsHead(box: Box, head: Ticket) {
    head in box.tickets && forall t :: t in box.tickets ==> t.id >= head.id
  }

  /**
   What a try by a ticket behind the head may look like: by a process holding no claim, on a reading that is sound
   for the rows read under the lock. A ticket of seats alone is decided without sampling the OS; it then must not
   contend with a head that wants cores or memory (see SeatsOnlyJumperIsUnseen).
   */
  predicate OrderlyTry(capacity: Capacity, world: World, box: Box, head: Ticket, e: Event) {
    e.Tries? ==>
      var held := Reap(box, e.live).claims;
      && e.ticket != head.id && (exists t :: t in box.tickets && t.id == e.ticket)
      && e.wall > 0
      && !HoldsAClaim(held, e.pid)
      && (if SeatsAlone(e.demand)
          then head.asked.Asks? && (SeatsAlone(VectorOf(head.asked.load)) || !Contends(LoadOf(e.demand), head.asked))
          else Sound(world, held, e.reading))
      && e.pid !in e.reading.usage
  }

  /** A step while the head waits: time moves forward, ids are fresh, and the head neither leaves nor is dropped. */
  predicate Orderly(capacity: Capacity, world: World, box: Box, head: Ticket, e: Event) {
    && OrderlyTry(capacity, world, box, head, e)
    && (e.Ticks? ==> e.now >= box.now)
    && head in Step(capacity, box, e).tickets
  }

  predicate OrderlyRun(capacity: Capacity, world: World, box: Box, head: Ticket, events: seq<Event>)
    decreases |events|
  {
    events == [] ||
    (Orderly(capacity, world, box, head, events[0]) &&
     OrderlyRun(capacity, world, Step(capacity, box, events[0]), head, events[1..]))
  }

  // ----- the bound

  /**
   Whether a step admits a claim that takes the fit of a demand reserved by `bound`: at that very look the demand
   fitted, some row that fell due since `bound` was still held, and beside the new claim what stays past `bound` leaves
   it no room.
   */
  predicate TakesTheFit(capacity: Capacity, world: World, box: Box, wanted: Vector, e: Event, bound: real) {
    && e.Tries?
    && OutcomeOf(capacity, box, e).Admitted?
    && var reaped := Reap(box, e.live);
    && Spare(capacity, world, reaped.claims, wanted)
    && DueSince(reaped.claims, bound, box.now)
    && !Spare(capacity, world, Stay(reaped.claims, bound) + [RowOf(reaped, e.pid, e.demand, e.wall, e.key)], wanted)
  }

  /** Some row held now fell due after `bound`. */
  predicate DueSince(held: seq<Holding>, bound: real, now: real) {
    exists h :: h in held && bound < h.deadline <= now
  }

  function NextBound(capacity: Capacity, world: World, box: Box, wanted: Vector, e: Event, bound: real): (next: real)
    ensures next >= bound
  {
    if TakesTheFit(capacity, world, box, wanted, e, bound) then box.now else bound
  }

  /** A demand's bound over a run: its start when it became head, or the last moment its fit was taken. */
  function Bound(capacity: Capacity, world: World, box: Box, wanted: Vector, events: seq<Event>, start: real)
    : (bound: real)
    ensures bound >= start
    decreases |events|
  {
    if events == [] then start
    else
      Bound(capacity, world, Step(capacity, box, events[0]), wanted, events[1..],
            NextBound(capacity, world, box, wanted, events[0], start))
  }

  /** Whether some step of the run takes the fit reserved by `start`. */
  predicate TakenAfter(capacity: Capacity, world: World, box: Box, wanted: Vector, events: seq<Event>, start: real)
    decreases |events|
  {
    events != [] &&
    (TakesTheFit(capacity, world, box, wanted, events[0], start) ||
     TakenAfter(capacity, world, Step(capacity, box, events[0]), wanted, events[1..], start))
  }

  /** Everything that stays held past `moment` leaves room for `demand`. */
  predicate Reserved(capacity: Capacity, world: World, box: Box, demand: Vector, moment: real) {
    Spare(capacity, world, Stay(box.claims, moment), demand)
  }

  // ----- one step keeps the reservation

  lemma FewerClaimsKeepIt(capacity: Capacity, world: World, claims: seq<Holding>, fewer: seq<Holding>, demand: Vector,
                          moment: real)
    requires forall n :: SumDeclared(Stay(fewer, moment), n) <= SumDeclared(Stay(claims, moment), n)
    requires Spare(capacity, world, Stay(claims, moment), demand)
    ensures Spare(capacity, world, Stay(fewer, moment), demand)
  {
    hide SumDeclared, Stay, Lent;
  }

  lemma ReapKeepsIt(capacity: Capacity, world: World, box: Box, live: Liveness, demand: Vector, moment: real)
    requires Reserved(capacity, world, box, demand, moment)
    ensures Reserved(capacity, world, Reap(box, live), demand, moment)
  {
    hide SumDeclared, Stay, Lent, Select;
    forall n { SelectDeclaresLess(box.claims, Surviving(box.now, live), moment, n); }
    FewerClaimsKeepIt(capacity, world, box.claims, Reap(box, live).claims, demand, moment);
  }

  /** In the closed world `earliest` is not after any moment by which the reservation stands, nor after now. */
  lemma EarliestByReservation(capacity: Capacity, world: World, held: seq<Holding>, reading: Reading, demand: Vector,
                              now: real, moment: real)
    requires Unwatched(capacity) && Reads(world, held, reading, demand)
    requires Spare(capacity, world, Stay(held, moment), demand)
    ensures Earliest(capacity, held, reading, demand, now).At?
    ensures Earliest(capacity, held, reading, demand, now).moment <= Max(now, moment)
  {
    hide Fits, FitsAfter, Spare, Earliest, Reads, Stay;
    FitsAfterIsSpare(capacity, world, held, reading, demand, moment);
    EarliestNotAfter(capacity, held, reading, demand, now, moment);
    EarliestIsLeast(capacity, held, reading, demand, now);
  }

  /** And what `earliest` finds is a moment by which the reservation stands. */
  lemma ReservationByEarliest(capacity: Capacity, world: World, held: seq<Holding>, reading: Reading, demand: Vector,
                              now: real, moment: real)
    requires Unwatched(capacity) && Reads(world, held, reading, demand)
    requires Earliest(capacity, held, reading, demand, now).At?
    requires Earliest(capacity, held, reading, demand, now).moment <= moment ||
             Fits(capacity, held, reading, demand)
    ensures Spare(capacity, world, Stay(held, moment), demand)
  {
    hide Fits, FitsAfter, Spare, Earliest, Reads, Stay;
    var start := Earliest(capacity, held, reading, demand, now).moment;
    EarliestIsLeast(capacity, held, reading, demand, now);
    FitsIsSpare(capacity, world, held, reading, demand);
    if Fits(capacity, held, reading, demand) {
      SpareLater(capacity, world, held, demand, moment, moment);
    } else {
      FitsAfterIsSpare(capacity, world, held, reading, demand, start);
      SpareLater(capacity, world, held, demand, start, moment);
    }
  }

  lemma ReadingWithJumper(world: World, held: seq<Holding>, reading: Reading, jumper: Holding, demand: Vector)
    requires Reads(world, held, reading, demand) && jumper.pid !in reading.usage
    ensures Reads(world, held + [jumper], reading, demand)
  {
    SumsAppend(held, jumper, reading, Cpu);
  }

  /**
   One admission past the head keeps the reservation by `before`, unless the head fitted and a row due since `before`
   was still held; where the head fitted there is then one by the moment of the admission.
   */
  lemma JumperKeepsIt(capacity: Capacity, world: World, held: seq<Holding>, reading: Reading, jumper: Holding,
                      wanted: Load, now: real, before: real)
    requires Unwatched(capacity) && jumper.pid !in reading.usage && jumper.deadline > now
    requires Reads(world, held, reading, VectorOf(wanted)) || !Contends(jumper.load, Asks(wanted))
    requires !Blocks(Asks(wanted), jumper, capacity, held, reading, now)
    requires Spare(capacity, world, Stay(held, before), VectorOf(wanted))
    ensures Spare(capacity, world, Stay(held + [jumper], before), VectorOf(wanted)) ||
            (Spare(capacity, world, held, VectorOf(wanted)) && DueSince(held, before, now))
    ensures Spare(capacity, world, held, VectorOf(wanted)) ==>
              Spare(capacity, world, Stay(held + [jumper], now), VectorOf(wanted))
  {
    hide Fits, FitsAfter, Spare, Earliest, Reads, Stay, Contends, DueSince;
    var demand := VectorOf(wanted);
    SpareLater(capacity, world, held, demand, now, now);
    if !Contends(jumper.load, Asks(wanted)) {
      DisjointKeepsSpare(capacity, world, held, jumper, wanted, before);
      if Spare(capacity, world, held, demand) { DisjointKeepsSpare(capacity, world, held, jumper, wanted, now); }
    } else if Spare(capacity, world, held + [jumper], demand) {
      SpareLater(capacity, world, held + [jumper], demand, before, before);
      SpareLater(capacity, world, held + [jumper], demand, now, now);
    } else {
      ReadingWithJumper(world, held, reading, jumper, demand);
      FitsIsSpare(capacity, world, held, reading, demand);
      FitsIsSpare(capacity, world, held + [jumper], reading, demand);
      FitsAfterIsSpare(capacity, world, held, reading, demand, before);
      EarliestNotAfter(capacity, held, reading, demand, now, before);
      EarliestIsLeast(capacity, held, reading, demand, now);
      JumperStartsBy(capacity, world, held, reading, jumper, demand, now, before);
    }
  }

  /** What the start read beside the jumper reserves. */
  lemma JumperStartsBy(capacity: Capacity, world: World, held: seq<Holding>, reading: Reading, jumper: Holding,
                       demand: Vector, now: real, before: real)
    requires Unwatched(capacity) && Reads(world, held + [jumper], reading, demand) && jumper.deadline > now
    requires !Fits(capacity, held + [jumper], reading, demand)
    requires var start := Earliest(capacity, held + [jumper], reading, demand, now);
             start.At? && start.moment <= if Fits(capacity, held, reading, demand) then now else before
    ensures Spare(capacity, world, Stay(held + [jumper], before), demand) ||
            (Fits(capacity, held, reading, demand) && DueSince(held, before, now))
    ensures Fits(capacity, held, reading, demand) ==> Spare(capacity, world, Stay(held + [jumper], now), demand)
  {
    hide Fits, FitsAfter, Spare, Earliest, Reads, Stay;
    var start := Earliest(capacity, held + [jumper], reading, demand, now).moment;
    EarliestIsLeast(capacity, held + [jumper], reading, demand, now);
    if start <= before {
      ReservationByEarliest(capacity, world, held + [jumper], reading, demand, now, before);
    } else {
      var h :| h in held + [jumper] && h.deadline == start;
      assert h in held;
    }
    if Fits(capacity, held, reading, demand) {
      ReservationByEarliest(capacity, world, held + [jumper], reading, demand, now, now);
    }
  }

  lemma DisjointKeepsSpare(capacity: Capacity, world: World, held: seq<Holding>, jumper: Holding, wanted: Load,
                           moment: real)
    requires !Contends(jumper.load, Asks(wanted))
    requires Spare(capacity, world, Stay(held, moment), VectorOf(wanted))
    ensures Spare(capacity, world, Stay(held + [jumper], moment), VectorOf(wanted))
  {
    hide SumDeclared, Stay, Lent, Declared, Contends, VectorOf;
    NotContending(jumper.load, wanted);
    forall n | n in VectorOf(wanted) {
      StayDeclaredAppends(held, jumper, moment, n);
    }
  }

  // ----- one step

  lemma {:induction false} NobodyDelayed(tickets: seq<Ticket>, ticket: nat, jumper: Holding, capacity: Capacity,
                                         held: seq<Holding>, reading: Reading, now: real, t: Ticket)
    requires BlockedBy(tickets, ticket, jumper, capacity, held, reading, now).None?
    requires t in tickets && t.id < ticket
    ensures !Blocks(t.asked, jumper, capacity, held, reading, now)
  {
    hide Blocks;
    if t != tickets[0] {
      NobodyDelayed(tickets[1..], ticket, jumper, capacity, held, reading, now, t);
    }
  }

  /** A claim that jumped the head passed the ordering rule. */
  lemma JumperPassed(capacity: Capacity, box: Box, e: Event, head: Ticket)
    requires e.Tries? && head in Reap(box, e.live).tickets && head.id < e.ticket
    requires !HoldsAClaim(Reap(box, e.live).claims, e.pid)
    requires OutcomeOf(capacity, box, e).Admitted?
    ensures var reaped := Reap(box, e.live);
            !Blocks(head.asked, RowOf(reaped, e.pid, e.demand, e.wall, e.key), capacity, reaped.claims,
                    e.reading, box.now)
  {
    hide Blocks, Reap, Decides, LoadOf;
    var reaped := Reap(box, e.live);
    assert reaped.now == box.now by { ReapMovesNoClock(box, e.live); }
    NobodyDelayed(reaped.tickets, e.ticket, RowOf(reaped, e.pid, e.demand, e.wall, e.key), capacity, reaped.claims,
                  e.reading, box.now, head);
  }

  /** What a step does to the queue behind the head. */
  lemma HeadStaysFirst(capacity: Capacity, box: Box, head: Ticket, e: Event)
    requires IsHead(box, head) && head.id <= box.lastTicket
    requires head in Step(capacity, box, e).tickets
    ensures IsHead(Step(capacity, box, e), head) && head.id <= Step(capacity, box, e).lastTicket
    ensures e.Tries? && OutcomeOf(capacity, box, e).Admitted? ==> head in Reap(box, e.live).tickets
  {
    hide Decision, Select;
    match e
    case Tries(ticket, _, _, _, _, _, live) =>
      SelectMembers(box.tickets, Waiting(box.now, live));
      SelectMembers(Reap(box, live).tickets, OtherTicket(ticket));
    case GivesUp(ticket) => SelectMembers(box.tickets, OtherTicket(ticket));
    case Reaps(live) => SelectMembers(box.tickets, Waiting(box.now, live));
    case _ =>
  }

  lemma TryKeepsReservation(capacity: Capacity, world: World, box: Box, head: Ticket, e: Event, bound: real)
    requires Unwatched(capacity) && head.asked.Asks?
    requires IsHead(box, head) && e.Tries? && OrderlyTry(capacity, world, box, head, e)
    requires OutcomeOf(capacity, box, e).Admitted? ==> head in Reap(box, e.live).tickets
    requires Reserved(capacity, world, box, VectorOf(head.asked.load), bound)
    ensures Reserved(capacity, world, Step(capacity, box, e), VectorOf(head.asked.load),
                     NextBound(capacity, world, box, VectorOf(head.asked.load), e, bound))
  {
    hide Reap, Spare, Stay, Blocks, Try, Sound, VectorOf, LoadOf, Contends, DueSince;
    var reaped := Reap(box, e.live);
    ReapKeepsIt(capacity, world, box, e.live, VectorOf(head.asked.load), bound);
    ReapMovesNoClock(box, e.live);
    TryLeavesClaims(capacity, box, e);
    if OutcomeOf(capacity, box, e).Admitted? {
      JumperPassed(capacity, box, e, head);
      var row := RowOf(reaped, e.pid, e.demand, e.wall, e.key);
      assert row.load == LoadOf(e.demand);
      assert SeatsAlone(VectorOf(head.asked.load)) || Sound(world, reaped.claims, e.reading) ==>
             Reads(world, reaped.claims, e.reading, VectorOf(head.asked.load));
      JumperKeepsIt(capacity, world, reaped.claims, e.reading, row, head.asked.load, box.now, bound);
      SplitsAppend(reaped.claims, row, bound);
    }
  }

  lemma StepKeepsReservation(capacity: Capacity, world: World, box: Box, head: Ticket, e: Event, bound: real)
    requires Unwatched(capacity) && head.asked.Asks?
    requires IsHead(box, head) && head.id <= box.lastTicket && Orderly(capacity, world, box, head, e)
    requires Reserved(capacity, world, box, VectorOf(head.asked.load), bound)
    ensures IsHead(Step(capacity, box, e), head) && head.id <= Step(capacity, box, e).lastTicket
    ensures Reserved(capacity, world, Step(capacity, box, e), VectorOf(head.asked.load),
                     NextBound(capacity, world, box, VectorOf(head.asked.load), e, bound))
  {
    HeadStaysFirst(capacity, box, head, e);
    StepKeepsTheRoom(capacity, world, box, head, e, bound);
  }

  lemma StepKeepsTheRoom(capacity: Capacity, world: World, box: Box, head: Ticket, e: Event, bound: real)
    requires Unwatched(capacity) && head.asked.Asks? && IsHead(box, head)
    requires e.Tries? && OutcomeOf(capacity, box, e).Admitted? ==> head in Reap(box, e.live).tickets
    requires Orderly(capacity, world, box, head, e)
    requires Reserved(capacity, world, box, VectorOf(head.asked.load), bound)
    ensures Reserved(capacity, world, Step(capacity, box, e), VectorOf(head.asked.load),
                     NextBound(capacity, world, box, VectorOf(head.asked.load), e, bound))
  {
    hide SumDeclared, Stay, Lent, VectorOf, Select, Marked, Try, Orderly, IsHead, Spare;
    var wanted := VectorOf(head.asked.load);
    match e
    case Tries(_, _, _, _, _, _, _) =>
      assert OrderlyTry(capacity, world, box, head, e) by { OrderlyTries(capacity, world, box, head, e); }
      TryKeepsReservation(capacity, world, box, head, e, bound);
    case Leaves(claim) =>
      forall n { SelectDeclaresLess(box.claims, OtherOrKept(claim), bound, n); }
      FewerClaimsKeepIt(capacity, world, box.claims, Leave(box, claim).claims, wanted, bound);
    case Releases(claim) =>
      forall n { SelectDeclaresLess(box.claims, OtherThan(claim), bound, n); }
      FewerClaimsKeepIt(capacity, world, box.claims, Release(box, claim).claims, wanted, bound);
    case HandsOver(claim, pid) =>
      forall n { MarkedDeclaresSame(box.claims, claim, Some(pid), false, bound, n); }
      FewerClaimsKeepIt(capacity, world, box.claims, HandOver(box, claim, pid).claims, wanted, bound);
    case Keeps(claim) =>
      forall n { MarkedDeclaresSame(box.claims, claim, None, false, bound, n); }
      FewerClaimsKeepIt(capacity, world, box.claims, KeepClaim(box, claim).claims, wanted, bound);
    case Persists(claim) =>
      forall n { MarkedDeclaresSame(box.claims, claim, None, true, bound, n); }
      FewerClaimsKeepIt(capacity, world, box.claims, Persist(box, claim).claims, wanted, bound);
    case Reaps(live) =>
      ReapKeepsIt(capacity, world, box, live, wanted, bound);
    case _ =>
  }

  lemma OrderlyTries(capacity: Capacity, world: World, box: Box, head: Ticket, e: Event)
    requires Orderly(capacity, world, box, head, e)
    ensures OrderlyTry(capacity, world, box, head, e)
  {
  }

  /**
   THE RESERVATION IS LOST EXACTLY WHERE THE FIT IS TAKEN, at every moment: an orderly step leaves what stays past
   `bound` room for the head, unless it admits a claim over a row due since `bound` beside which the head's fit is gone.
   */
  lemma LostWhereTheFitIsTaken(capacity: Capacity, world: World, box: Box, head: Ticket, e: Event, bound: real)
    requires Unwatched(capacity) && head.asked.Asks?
    requires IsHead(box, head) && head.id <= box.lastTicket && Orderly(capacity, world, box, head, e)
    requires Reserved(capacity, world, box, VectorOf(head.asked.load), bound)
    ensures !Reserved(capacity, world, Step(capacity, box, e), VectorOf(head.asked.load), bound) <==>
            TakesTheFit(capacity, world, box, VectorOf(head.asked.load), e, bound)
  {
    hide Reserved, VectorOf, Step, Orderly, IsHead, TakesTheFit;
    StepKeepsReservation(capacity, world, box, head, e, bound);
    if TakesTheFit(capacity, world, box, VectorOf(head.asked.load), e, bound) {
      assert e.Tries? && e.wall > 0 by { TakenIsOrderly(capacity, world, box, head, e, bound); }
      TakenIsLost(capacity, world, box, VectorOf(head.asked.load), e, bound);
    }
  }

  lemma TakenIsOrderly(capacity: Capacity, world: World, box: Box, head: Ticket, e: Event, bound: real)
    requires head.asked.Asks? && Orderly(capacity, world, box, head, e)
    requires TakesTheFit(capacity, world, box, VectorOf(head.asked.load), e, bound)
    ensures e.Tries? && e.wall > 0
  {
    hide Spare, Reap, Stay, DueSince, OutcomeOf;
  }

  lemma TakenIsLost(capacity: Capacity, world: World, box: Box, wanted: Vector, e: Event, bound: real)
    requires e.Tries? && e.wall > 0 && TakesTheFit(capacity, world, box, wanted, e, bound)
    ensures !Reserved(capacity, world, Step(capacity, box, e), wanted, bound)
  {
    hide Spare, Reap, Try, LoadOf, Stay;
    var reaped := Reap(box, e.live);
    TryLeavesClaims(capacity, box, e);
    ReapMovesNoClock(box, e.live);
    SplitsAppend(reaped.claims, RowOf(reaped, e.pid, e.demand, e.wall, e.key), bound);
  }

  /** A head that fitted at a look and no longer does after its admission was passed over a row already due. */
  lemma TakenOverADueRow(capacity: Capacity, world: World, box: Box, head: Ticket, e: Event)
    requires Unwatched(capacity) && head.asked.Asks?
    requires IsHead(box, head) && head.id <= box.lastTicket && Orderly(capacity, world, box, head, e)
    requires e.Tries? && OutcomeOf(capacity, box, e).Admitted?
    requires Spare(capacity, world, Reap(box, e.live).claims, VectorOf(head.asked.load))
    requires !Spare(capacity, world, Step(capacity, box, e).claims, VectorOf(head.asked.load))
    ensures exists h :: h in Reap(box, e.live).claims && h.deadline <= box.now
  {
    hide Reap, Spare, Blocks, Try, Sound, VectorOf, LoadOf, Contends, Earliest;
    var reaped, wanted := Reap(box, e.live), VectorOf(head.asked.load);
    HeadStaysFirst(capacity, box, head, e);
    ReapMovesNoClock(box, e.live);
    TryLeavesClaims(capacity, box, e);
    JumperPassed(capacity, box, e, head);
    var row := RowOf(reaped, e.pid, e.demand, e.wall, e.key);
    assert SeatsAlone(wanted) || Sound(world, reaped.claims, e.reading) ==>
           Reads(world, reaped.claims, e.reading, wanted);
    TakenBesideADueRow(capacity, world, reaped.claims, e.reading, row, head.asked.load, box.now);
  }

  lemma TakenBesideADueRow(capacity: Capacity, world: World, held: seq<Holding>, reading: Reading, jumper: Holding,
                           wanted: Load, now: real)
    requires Unwatched(capacity) && jumper.pid !in reading.usage && jumper.deadline > now
    requires Reads(world, held, reading, VectorOf(wanted)) || !Contends(jumper.load, Asks(wanted))
    requires !Blocks(Asks(wanted), jumper, capacity, held, reading, now)
    requires Spare(capacity, world, held, VectorOf(wanted))
    requires !Spare(capacity, world, held + [jumper], VectorOf(wanted))
    ensures exists h :: h in held && h.deadline <= now
  {
    hide Fits, FitsAfter, Spare, Earliest, Reads, Contends, VectorOf;
    var demand := VectorOf(wanted);
    if !Contends(jumper.load, Asks(wanted)) {
      DisjointKeepsAll(capacity, world, held, jumper, wanted);
    } else {
      ReadingWithJumper(world, held, reading, jumper, demand);
      FitsIsSpare(capacity, world, held, reading, demand);
      FitsIsSpare(capacity, world, held + [jumper], reading, demand);
      OverdueRowsHideADelay(wanted, jumper, capacity, held, reading, now);
      EarliestIsLeast(capacity, held, reading, demand, now);
      EarliestIsLeast(capacity, held + [jumper], reading, demand, now);
      if Earliest(capacity, held + [jumper], reading, demand, now) == At(now) {
        var h :| h in held + [jumper] && h.deadline == now;
      }
    }
  }

  lemma DisjointKeepsAll(capacity: Capacity, world: World, held: seq<Holding>, jumper: Holding, wanted: Load)
    requires !Contends(jumper.load, Asks(wanted)) && Spare(capacity, world, held, VectorOf(wanted))
    ensures Spare(capacity, world, held + [jumper], VectorOf(wanted))
  {
    hide SumDeclared, Lent, Declared, Contends, VectorOf;
    NotContending(jumper.load, wanted);
    forall n | n in VectorOf(wanted) {
      DeclaredAppends(held, jumper, n);
    }
  }

  // ----- whole runs

  /**
   THE RESERVATION HOLDS OVER EVERY RUN: once what stays held past `start` leaves room for the head, then whatever
   arrives, is admitted past it, leaves or is reaped, what stays held past the run's bound leaves room for it.
   */
  lemma {:induction false} ReservationHolds(capacity: Capacity, world: World, box: Box, head: Ticket,
                                            events: seq<Event>, start: real)
    requires Unwatched(capacity) && head.asked.Asks?
    requires IsHead(box, head) && head.id <= box.lastTicket
    requires Reserved(capacity, world, box, VectorOf(head.asked.load), start)
    requires OrderlyRun(capacity, world, box, head, events)
    ensures var end := Run(capacity, box, events);
            && IsHead(end, head)
            && Reserved(capacity, world, end, VectorOf(head.asked.load),
                        Bound(capacity, world, box, VectorOf(head.asked.load), events, start))
    decreases |events|
  {
    if events != [] {
      hide Step, Reserved, IsHead, Orderly, TakesTheFit, VectorOf;
      StepKeepsReservation(capacity, world, box, head, events[0], start);
      ReservationHolds(capacity, world, Step(capacity, box, events[0]), head, events[1..],
                       NextBound(capacity, world, box, VectorOf(head.asked.load), events[0], start));
    }
  }

  /** The bound is the start itself exactly on the runs in which nothing takes the fit after it. */
  lemma {:induction false} BoundIsTheStart(capacity: Capacity, world: World, box: Box, wanted: Vector,
                                           events: seq<Event>, start: real)
    ensures Bound(capacity, world, box, wanted, events, start) == start <==>
            !TakenAfter(capacity, world, box, wanted, events, start)
    decreases |events|
  {
    if events != [] {
      hide Step, TakesTheFit;
      BoundIsTheStart(capacity, world, Step(capacity, box, events[0]), wanted, events[1..], start);
    }
  }

  lemma SameAmounts(a: Vector, b: Vector)
    requires forall n :: Amount(a, n) == Amount(b, n)
    ensures a == b
  {
    forall n
      ensures n in a <==> n in b
      ensures n in a ==> a[n] == b[n]
    {
      assert Amount(a, n) == Amount(b, n);
      assert n in a ==> a[n] > 0.0;
      assert n in b ==> b[n] > 0.0;
    }
    assert a.Keys == b.Keys;
  }

  lemma WholeAmount(demand: Vector, n: Name)
    requires Checked(demand) && WholeBytes(demand)
    ensures Declared(LoadOf(demand), n) == Amount(demand, n)
  {
    if n.Seat? && n in demand {
      assert n.tool in SeatNames(demand);
    }
  }

  /** A row says exactly what a demand of whole bytes asks. */
  lemma RowSaysDemand(demand: Vector)
    requires Checked(demand) && WholeBytes(demand)
    ensures VectorOf(LoadOf(demand)) == demand
  {
    hide Checked, WholeBytes, LoadOf, Declared;
    forall n { WholeAmount(demand, n); }
    SameAmounts(VectorOf(LoadOf(demand)), demand);
  }

  /** The head's own look at the ledger: a new process with a free key, on a sound reading. */
  predicate HeadTries(world: World, box: Box, head: Ticket, e: Event) {
    && e.Tries? && e.ticket == head.id && e.wall > 0
    && head.asked == Asks(LoadOf(e.demand)) && Checked(e.demand) && WholeBytes(e.demand)
    && var held := Reap(box, e.live).claims;
    && !KeyHeld(held, e.key)
    && !HoldsAClaim(held, e.pid)
    && Reads(world, held, e.reading, e.demand)
  }

  /** After a reap nothing held is a grace past its deadline. */
  lemma ReapedIsRecent(box: Box, live: Liveness)
    ensures forall h :: h in Reap(box, live).claims ==> h.deadline + GRACE >= box.now
  {
    SelectMembers(box.claims, Surviving(box.now, live));
  }

  lemma {:induction false} NobodyAhead(tickets: seq<Ticket>, ticket: nat, jumper: Holding, capacity: Capacity,
                                       held: seq<Holding>, reading: Reading, now: real)
    requires forall t :: t in tickets ==> t.id >= ticket
    ensures BlockedBy(tickets, ticket, jumper, capacity, held, reading, now).None?
  {
    hide Blocks;
    if tickets != [] {
      NobodyAhead(tickets[1..], ticket, jumper, capacity, held, reading, now);
    }
  }

  lemma NewcomerRoom(capacity: Capacity, held: seq<Holding>, reading: Reading, pid: int, n: Name)
    requires !HoldsAClaim(held, pid)
    ensures RoomOf(capacity, held, reading, Some(pid), n) == RoomOf(capacity, held, reading, None, n)
  {
    hide SumOwed, SumDeclared, SumTaken, SumSeats, Claims;
    OwnsNothing(held, pid);
    NobodyOwns(held);
  }

  lemma DecidesForANewcomer(capacity: Capacity, held: seq<Holding>, reading: Reading, demand: Vector, pid: int)
    requires !HoldsAClaim(held, pid)
    ensures Decides(capacity, held, reading, demand, Some(pid)) <==> Fits(capacity, held, reading, demand)
  {
    hide RoomOf, Decides;
    DecidesIsRoom(capacity, held, reading, demand, Some(pid));
    DecidesIsRoom(capacity, held, reading, demand, None);
    forall n | n in demand {
      NewcomerRoom(capacity, held, reading, pid, n);
    }
  }

  lemma HeadFits(capacity: Capacity, world: World, box: Box, e: Event, head: Ticket, bound: real)
    requires Unwatched(capacity) && HeadTries(world, box, head, e)
    requires Reserved(capacity, world, box, e.demand, bound)
    requires forall h :: h in Reap(box, e.live).claims ==> h.deadline > bound
    ensures Decides(capacity, Reap(box, e.live).claims, e.reading, e.demand, Some(e.pid))
  {
    hide Reap, Spare, Fits, Decides, Reads, Checked, WholeBytes;
    var held := Reap(box, e.live).claims;
    ReapKeepsIt(capacity, world, box, e.live, e.demand, bound);
    NothingGone(held, bound);
    FitsIsSpare(capacity, world, held, e.reading, e.demand);
    DecidesForANewcomer(capacity, held, e.reading, e.demand, e.pid);
  }

  /** The head is admitted at its next look once every row still held is due after the bound. */
  lemma HeadIsAdmitted(capacity: Capacity, world: World, box: Box, head: Ticket, e: Event, bound: real)
    requires Unwatched(capacity) && IsHead(box, head) && HeadTries(world, box, head, e)
    requires Reserved(capacity, world, box, e.demand, bound)
    requires (forall h :: h in Reap(box, e.live).claims ==> h.deadline > bound) || box.now > bound + GRACE
    ensures OutcomeOf(capacity, box, e).Admitted?
  {
    hide Decides, Reap, LoadOf, Reads, Checked, WholeBytes, Reserved, KeyHeld, HoldsAClaim;
    var reaped := Reap(box, e.live);
    ReapedIsRecent(box, e.live);
    HeadFits(capacity, world, box, e, head, bound);
    ReapedTickets(box, e.live);
    NobodyAhead(reaped.tickets, e.ticket, RowOf(reaped, e.pid, e.demand, e.wall, e.key), capacity, reaped.claims,
                e.reading, reaped.now);
  }

  lemma ReapedTickets(box: Box, live: Liveness)
    ensures forall t :: t in Reap(box, live).tickets ==> t in box.tickets
  {
    SelectMembers(box.tickets, Waiting(box.now, live));
  }

  /**
   NO STARVATION. When a ticket becomes head its earliest start is `start`: that moment or a deadline then held.
   Over every orderly run its earliest start stays at most the later of now and the run's bound, and its first look
   more than a grace after the bound, or when no held row is due by the bound, admits it.
   */
  lemma NoStarvation(capacity: Capacity, world: World, box: Box, head: Ticket, reading: Reading, start: real,
                     events: seq<Event>, e: Event)
    requires Unwatched(capacity) && IsHead(box, head) && head.id <= box.lastTicket && e.Tries?
    requires Reads(world, box.claims, reading, e.demand)
    requires Earliest(capacity, box.claims, reading, e.demand, box.now) == At(start)
    requires OrderlyRun(capacity, world, box, head, events)
    requires HeadTries(world, Run(capacity, box, events), head, e)
    ensures start == box.now || IsDeadline(box.claims, start)
    ensures var end := Run(capacity, box, events);
            var bound := Bound(capacity, world, box, e.demand, events, start);
            && (forall look :: Reads(world, end.claims, look, e.demand) ==>
                               var s := Earliest(capacity, end.claims, look, e.demand, end.now);
                               s.At? && s.moment <= Max(end.now, bound))
            && (end.now > bound + GRACE || (forall h :: h in Reap(end, e.live).claims ==> h.deadline > bound) ==>
                  OutcomeOf(capacity, end, e).Admitted?)
  {
    hide Earliest, Reads, Fits, OrderlyRun, IsHead, Spare, Try, Reap, Run, Bound, Stay, LoadOf, OutcomeOf;
    var end := Run(capacity, box, events);
    var bound := Bound(capacity, world, box, e.demand, events, start);
    assert VectorOf(head.asked.load) == e.demand by { RowSaysDemand(e.demand); }
    EarliestIsLeast(capacity, box.claims, reading, e.demand, box.now);
    ReservationByEarliest(capacity, world, box.claims, reading, e.demand, box.now, start);
    ReservationHolds(capacity, world, box, head, events, start);
    forall look | Reads(world, end.claims, look, e.demand) {
      EarliestByReservation(capacity, world, end.claims, look, e.demand, end.now, bound);
    }
    if end.now > bound + GRACE || (forall h :: h in Reap(end, e.live).claims ==> h.deadline > bound) {
      HeadIsAdmitted(capacity, world, end, head, e, bound);
    }
  }

  /**
   AS DOCUMENTED, BUT FOR A TAKEN FIT: unless some admission past it took room the head itself fitted in at that very
   look, after its start, its first look more than a grace after the start it had when it became head admits it.
   */
  lemma AdmittedAfterItsStart(capacity: Capacity, world: World, box: Box, head: Ticket, reading: Reading, start: real,
                              events: seq<Event>, e: Event)
    requires Unwatched(capacity) && IsHead(box, head) && head.id <= box.lastTicket && e.Tries?
    requires Reads(world, box.claims, reading, e.demand)
    requires Earliest(capacity, box.claims, reading, e.demand, box.now) == At(start)
    requires OrderlyRun(capacity, world, box, head, events)
    requires HeadTries(world, Run(capacity, box, events), head, e)
    requires !TakenAfter(capacity, world, box, e.demand, events, start)
    requires Run(capacity, box, events).now > start + GRACE
    ensures OutcomeOf(capacity, Run(capacity, box, events), e).Admitted?
  {
    hide Earliest, Reads, OrderlyRun, IsHead, Run, Bound, TakenAfter, OutcomeOf, HeadTries, Reap;
    NoStarvation(capacity, world, box, head, reading, start, events, e);
    BoundIsTheStart(capacity, world, box, e.demand, events, start);
  }

  /**
   BACKFILL NEVER DELAYS, ADMISSION BY ADMISSION: a process with no claim and no use in the reading, admitted while no
   row is overdue, leaves the earliest start of every earlier declared ticket in the queue what it was.
   */
  lemma AdmissionDelaysNobody(capacity: Capacity, box: Box, e: Event, earlier: Ticket)
    requires e.Tries? && OutcomeOf(capacity, box, e).Admitted?
    requires earlier in Reap(box, e.live).tickets && earlier.id < e.ticket && earlier.asked.Asks?
    requires !HoldsAClaim(Reap(box, e.live).claims, e.pid) && e.pid !in e.reading.usage
    requires NoneOverdue(Reap(box, e.live).claims, box.now)
    ensures var wanted := VectorOf(earlier.asked.load);
            Earliest(capacity, Step(capacity, box, e).claims, e.reading, wanted, box.now) ==
            Earliest(capacity, Reap(box, e.live).claims, e.reading, wanted, box.now)
  {
    hide Reap, Try, Blocks, Earliest, VectorOf, LoadOf, NoneOverdue;
    var reaped := Reap(box, e.live);
    JumperPassed(capacity, box, e, earlier);
    TryLeavesClaims(capacity, box, e);
    ReapMovesNoClock(box, e.live);
    BackfillNeverDelays(earlier.asked.load, RowOf(reaped, e.pid, e.demand, e.wall, e.key), capacity, reaped.claims,
                        e.reading, box.now);
  }
}
