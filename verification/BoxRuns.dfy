/**
 Whole runs of the ledger: any sequence of steps by any processes, on any readings, with time passing between.
 */
module BoxRuns {
  import opened Options
  import opened Vectors
  import opened Supply
  import opened Order
  import opened World
  import opened Ledger

  datatype Event =
    | Arrives(pid: int, demand: Vector, queue: real)
    | Tries(ticket: nat, pid: int, demand: Vector, wall: nat, key: string, reading: Reading, live: Liveness)
    | GivesUp(ticket: nat)
    | Leaves(claim: nat)
    | Releases(claim: nat)
    | HandsOver(claim: nat, pid: int)
    | Keeps(claim: nat)
    | Persists(claim: nat)
    | Reaps(live: Liveness)
    | Ticks(now: real)

  function Step(capacity: Capacity, box: Box, e: Event): Box {
    match e
    case Arrives(pid, demand, queue) => Arrive(box, pid, demand, queue)
    case Tries(ticket, pid, demand, wall, key, reading, live) =>
      Try(box, ticket, pid, demand, wall, key, capacity, reading, live).0
    case GivesUp(ticket) => DropTicket(box, ticket)
    case Leaves(claim) => Leave(box, claim)
    case Releases(claim) => Release(box, claim)
    case HandsOver(claim, pid) => HandOver(box, claim, pid)
    case Keeps(claim) => KeepClaim(box, claim)
    case Persists(claim) => Persist(box, claim)
    case Reaps(live) => Reap(box, live)
    case Ticks(now) => Tick(box, now)
  }

  function Run(capacity: Capacity, box: Box, events: seq<Event>): Box
    decreases |events|
  {
    if events == [] then box else Run(capacity, Step(capacity, box, events[0]), events[1..])
  }

  // ----- what a step does to the claims

  /** Dropping rows drops declarations, at every moment. */
  lemma {:induction false} SelectDeclaresLess(claims: seq<Holding>, keep: Holding -> bool, moment: real, n: Name)
    ensures SumDeclared(Stay(Select(claims, keep), moment), n) <= SumDeclared(Stay(claims, moment), n)
    ensures SumDeclared(Select(claims, keep), n) <= SumDeclared(claims, n)
  {
    if claims != [] {
      var front, h := claims[..|claims| - 1], claims[|claims| - 1];
      var kept := Select(front, keep);
      SelectDeclaresLess(front, keep, moment, n);
      assert claims == front + [h];
      assert Select(claims, keep) == if keep(h) then kept + [h] else kept;
      hide SumDeclared, Stay, Declared, Select;
      StayDeclaredAppends(front, h, moment, n);
      StayDeclaredAppends(kept, h, moment, n);
    }
  }

  /** Keeping a row, or giving it to another process, changes no declaration and no deadline. */
  lemma {:induction false} MarkedDeclaresSame(claims: seq<Holding>, claim: nat, holder: Option<int>, external: bool,
                                              moment: real, n: Name)
    ensures SumDeclared(Stay(Marked(claims, claim, holder, external), moment), n) ==
            SumDeclared(Stay(claims, moment), n)
    ensures SumDeclared(Marked(claims, claim, holder, external), n) == SumDeclared(claims, n)
  {
    if claims == [] {
      assert Marked(claims, claim, holder, external) == claims;
    } else {
      hide SumDeclared, Stay, Declared, Marked, Mark;
      var front, h := claims[..|claims| - 1], claims[|claims| - 1];
      MarkedDeclaresSame(front, claim, holder, external, moment, n);
      MarkedAppends(front, h, claim, holder, external);
      assert claims == front + [h];
      AppendedAlike(front, h, Marked(front, claim, holder, external), Mark(h, claim, holder, external), moment, n);
    }
  }

  lemma AppendedAlike(some: seq<Holding>, h: Holding, others: seq<Holding>, g: Holding, moment: real, n: Name)
    requires h.load == g.load && h.deadline == g.deadline
    requires SumDeclared(some, n) == SumDeclared(others, n)
    requires SumDeclared(Stay(some, moment), n) == SumDeclared(Stay(others, moment), n)
    ensures SumDeclared(some + [h], n) == SumDeclared(others + [g], n)
    ensures SumDeclared(Stay(some + [h], moment), n) == SumDeclared(Stay(others + [g], moment), n)
  {
    hide SumDeclared, Stay, Declared;
    StayDeclaredAppends(some, h, moment, n);
    StayDeclaredAppends(others, g, moment, n);
  }

  lemma MarkedAppends(front: seq<Holding>, h: Holding, claim: nat, holder: Option<int>, external: bool)
    ensures Marked(front + [h], claim, holder, external) ==
            Marked(front, claim, holder, external) + [Mark(h, claim, holder, external)]
    ensures Mark(h, claim, holder, external).load == h.load && Mark(h, claim, holder, external).deadline == h.deadline
  {
    Appended(front, h);
  }

  // ----- the ledger never over-commits

  /** Every name's declarations sum to at most the box's size of it. */
  ghost predicate WithinSize(capacity: Capacity, claims: seq<Holding>) {
    forall n :: SumDeclared(claims, n) <= Size(capacity, n)
  }

  /** What a look comes to. */
  function OutcomeOf(capacity: Capacity, box: Box, e: Event): Outcome
    requires e.Tries?
  {
    Try(box, e.ticket, e.pid, e.demand, e.wall, e.key, capacity, e.reading, e.live).1
  }

  /** An admission is asked for by a process whose every claim, if any, is kept for another. */
  predicate AsksAfresh(box: Box, e: Event) {
    e.Tries? ==> forall h :: h in Reap(box, e.live).claims && h.pid == e.pid ==> h.kept
  }

  predicate AllAskAfresh(capacity: Capacity, box: Box, events: seq<Event>)
    decreases |events|
  {
    events == [] || (AsksAfresh(box, events[0]) && AllAskAfresh(capacity, Step(capacity, box, events[0]), events[1..]))
  }

  lemma {:induction false} OwnsNothing(claims: seq<Holding>, pid: int)
    requires forall h :: h in claims && h.pid == pid ==> h.kept
    ensures Claims(claims, Some(pid), false) == claims && Claims(claims, Some(pid), true) == []
  {
    if claims != [] {
      assert claims[|claims| - 1] in claims;
      OwnsNothing(claims[..|claims| - 1], pid);
    }
  }

  /** The room never passes the size less every declaration, whatever the reading says. */
  lemma RoomIsCapped(capacity: Capacity, claims: seq<Holding>, reading: Reading, pid: int, n: Name)
    requires forall h :: h in claims && h.pid == pid ==> h.kept
    ensures RoomOf(capacity, claims, reading, Some(pid), n) <=
            Max(0.0, Size(capacity, n) - SumDeclared(claims, n))
  {
    if n.Seat? {
      SeatsAreDeclared(claims, n.tool);
      SeatsAreCapped(capacity, claims, reading, n.tool);
    } else {
      OsRoomIsCapped(capacity, claims, reading, pid, n);
    }
  }

  lemma SeatsAreCapped(capacity: Capacity, claims: seq<Holding>, reading: Reading, tool: string)
    ensures SeatsLeft(tool, capacity, claims, reading) <= 0 ||
            SeatsLeft(tool, capacity, claims, reading) as real
            <= Size(capacity, Seat(tool)) - SumSeats(claims, tool) as real
  {
  }

  lemma OsRoomIsCapped(capacity: Capacity, claims: seq<Holding>, reading: Reading, pid: int, n: Name)
    requires !n.Seat? && forall h :: h in claims && h.pid == pid ==> h.kept
    ensures RoomOf(capacity, claims, reading, Some(pid), n) <=
            Max(0.0, Size(capacity, n) - SumDeclared(claims, n))
  {
    hide SumOwed, SumDeclared;
    OwnsNothing(claims, pid);
    assert SumTaken([], reading, n) == 0.0;
  }

  lemma AdmissionStaysWithin(capacity: Capacity, claims: seq<Holding>, reading: Reading, demand: Vector, row: Holding,
                             n: Name)
    requires Decides(capacity, claims, reading, demand, Some(row.pid)) && row.load == LoadOf(demand)
    requires forall h :: h in claims && h.pid == row.pid ==> h.kept
    requires SumDeclared(claims, n) <= Size(capacity, n)
    ensures SumDeclared(claims + [row], n) <= Size(capacity, n)
  {
    hide RoomOf, Decides, LoadOf, Declared;
    DecidesIsRoom(capacity, claims, reading, demand, Some(row.pid));
    RoomIsCapped(capacity, claims, reading, row.pid, n);
    DeclaredAppends(claims, row, n);
    assert Declared(LoadOf(demand), n) <= Amount(demand, n);
    if n in demand {
      assert demand[n] > 0.0;
    }
  }

  lemma TryStaysWithin(capacity: Capacity, box: Box, e: Event)
    requires e.Tries? && AsksAfresh(box, e)
    requires WithinSize(capacity, box.claims) && WithinSize(capacity, Reap(box, e.live).claims)
    ensures WithinSize(capacity, Step(capacity, box, e).claims)
  {
    hide Reap, LoadOf, SumDeclared, Size, DropTicket, Try, Decides;
    var reaped := Reap(box, e.live);
    TryLeavesClaims(capacity, box, e);
    if OutcomeOf(capacity, box, e).Admitted? {
      var row := RowOf(reaped, e.pid, e.demand, e.wall, e.key);
      AdmittedIsDecided(capacity, box, e);
      forall n
        ensures SumDeclared(reaped.claims + [row], n) <= Size(capacity, n)
      {
        AdmissionStaysWithin(capacity, reaped.claims, e.reading, e.demand, row, n);
      }
    }
  }

  /** A try leaves the reaped claims, plus the admitted row if any, or all as it was for a held key; no clock moves. */
  lemma TryLeavesClaims(capacity: Capacity, box: Box, e: Event)
    requires e.Tries?
    ensures var reaped := Reap(box, e.live);
            var outcome := OutcomeOf(capacity, box, e);
            && Step(capacity, box, e).now == box.now
            && Step(capacity, box, e).claims ==
               if outcome.Admitted? then reaped.claims + [RowOf(reaped, e.pid, e.demand, e.wall, e.key)]
               else if outcome.DuplicateKey? then box.claims
               else reaped.claims
  {
    hide Decision, Select;
  }

  lemma AdmittedIsDecided(capacity: Capacity, box: Box, e: Event)
    requires e.Tries? && OutcomeOf(capacity, box, e).Admitted?
    ensures Decides(capacity, Reap(box, e.live).claims, e.reading, e.demand, Some(e.pid))
  {
    hide Decides, Reap, LoadOf, BlockedBy;
  }

  lemma StepStaysWithin(capacity: Capacity, box: Box, e: Event)
    requires WithinSize(capacity, box.claims) && AsksAfresh(box, e)
    ensures WithinSize(capacity, Step(capacity, box, e).claims)
  {
    hide SumDeclared, Size, Declared;
    match e
    case Tries(_, _, _, _, _, _, live) =>
      forall n { SelectDeclaresLess(box.claims, Surviving(box.now, live), 0.0, n); }
      TryStaysWithin(capacity, box, e);
    case Leaves(claim) =>
      forall n { SelectDeclaresLess(box.claims, OtherOrKept(claim), 0.0, n); }
    case Releases(claim) =>
      forall n { SelectDeclaresLess(box.claims, OtherThan(claim), 0.0, n); }
    case HandsOver(claim, pid) =>
      forall n { MarkedDeclaresSame(box.claims, claim, Some(pid), false, 0.0, n); }
    case Keeps(claim) =>
      forall n { MarkedDeclaresSame(box.claims, claim, None, false, 0.0, n); }
    case Persists(claim) =>
      forall n { MarkedDeclaresSame(box.claims, claim, None, true, 0.0, n); }
    case Reaps(live) =>
      forall n { SelectDeclaresLess(box.claims, Surviving(box.now, live), 0.0, n); }
    case _ =>
  }

  /**
   THE LEDGER NEVER OVER-COMMITS: whatever the readings, over every run in which each admission is asked for by a
   process holding no un-kept claim, declared cores, memory and every seat sum to at most the box's size.
   */
  lemma {:induction false} NeverOverCommits(capacity: Capacity, box: Box, events: seq<Event>)
    requires WithinSize(capacity, box.claims) && AllAskAfresh(capacity, box, events)
    ensures WithinSize(capacity, Run(capacity, box, events).claims)
    decreases |events|
  {
    if events != [] {
      hide Step, WithinSize, AsksAfresh;
      StepStaysWithin(capacity, box, events[0]);
      NeverOverCommits(capacity, Step(capacity, box, events[0]), events[1..]);
    }
  }
}
