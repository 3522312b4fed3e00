/**
 What the ledger decides, row by row: which rows outlive a reap, what queues, when a look admits and what it then
 writes, and what each refusal means.
 */
module Admission {
  import opened Options
  import opened Vectors
  import opened Supply
  import opened Order
  import opened Ledger

  // ----- what outlives a reap

  /** A claim or ticket outlives a reap exactly by its times, its process and its probe; a minute's grace is a claim's
      alone. */
  lemma WhatOutlivesAReap(box: Box, live: Liveness)
    ensures var after := Reap(box, live);
            && InOrder(after.claims, box.claims) && InOrder(after.tickets, box.tickets)
            && (forall h :: h in after.claims <==>
                  && h in box.claims
                  && h.started <= box.now + 60.0 && h.deadline <= box.now + 604800.0 + 60.0
                  && box.now <= h.deadline + 60.0
                  && (h.pid !in live.gone || (h.external && h.id !in live.dead)))
            && (forall t :: t in after.tickets <==>
                  && t in box.tickets && box.now <= t.givesUp <= box.now + 604800.0 + 60.0 && t.pid !in live.gone)
            && after.now == box.now && after.lastClaim == box.lastClaim && after.lastTicket == box.lastTicket
  {
    SelectMembers(box.claims, Surviving(box.now, live));
    SelectInOrder(box.claims, Surviving(box.now, live));
    SelectMembers(box.tickets, Waiting(box.now, live));
    SelectInOrder(box.tickets, Waiting(box.now, live));
  }

  // ----- what queues

  /** What a hold may ask: something, whole cores and seats, memory wherever it asks cores, for at most seven days. */
  lemma WhatMayQueue(demand: Vector, wall: int, queue: real)
    ensures WellFormed(demand, wall, queue) <==>
            && 1 <= wall <= 604800 && 0.0 <= queue <= 604800.0
            && (exists n :: n in demand)
            && (Amount(demand, Cpu) > 0.0 ==> Amount(demand, Mem) > 0.0)
            && forall n :: n != Mem ==> Amount(demand, n) == Amount(demand, n).Floor as real
  {
    assert forall n :: n in demand ==> demand[n] == Amount(demand, n);
    assert demand != map[] <==> exists n :: n in demand by {
      if demand != map[] { assert demand.Keys != {}; }
    }
  }

  /** What an arrival writes: one ticket behind all others, with the next number, the asker, what the demand's row says
      and the end of its patience. */
  lemma WhatAnArrivalWrites(box: Box, pid: int, demand: Vector, queue: real)
    ensures var after := Arrive(box, pid, demand, queue);
            && after.tickets == box.tickets + [Ticket(box.lastTicket + 1, pid, box.now + queue, Asks(LoadOf(demand)))]
            && after.lastTicket == box.lastTicket + 1
            && after.claims == box.claims && after.now == box.now && after.lastClaim == box.lastClaim
  {
  }

  /** A demand is refused for good exactly when it asks more of something than the box has; a seat nobody declared is
      one. */
  lemma WhatNeverFits(capacity: Capacity, demand: Vector)
    ensures NeverFits(capacity, demand) <==>
            || (Cpu in demand && demand[Cpu] > capacity.cpu)
            || (Mem in demand && demand[Mem] > capacity.mem as real)
            || exists s :: Seat(s) in demand &&
                 demand[Seat(s)] > if s in capacity.seats then capacity.seats[s] as real else 1.0
  {
    if n :| n in demand && demand[n] > Size(capacity, n) {
      if n.Seat? { assert Seat(n.tool) in demand; }
    }
    if s :| Seat(s) in demand && demand[Seat(s)] > if s in capacity.seats then capacity.seats[s] as real else 1.0 {
      assert demand[Seat(s)] > Size(capacity, Seat(s));
    }
    if Cpu in demand && demand[Cpu] > capacity.cpu { assert demand[Cpu] > Size(capacity, Cpu); }
    if Mem in demand && demand[Mem] > capacity.mem as real { assert demand[Mem] > Size(capacity, Mem); }
  }

  // ----- when a look admits

  /** Both have some of one resource. */
  predicate Shares(holder: Load, wanted: Load) {
    || (holder.cpu > 0 && wanted.cpu > 0) || (holder.mem > 0 && wanted.mem > 0)
    || exists s :: s in holder.seats && s in wanted.seats && holder.seats[s] > 0 && wanted.seats[s] > 0
  }

  lemma ContendsExactly(holder: Load, wanted: Load)
    ensures Contends(holder, Asks(wanted)) <==> Shares(holder, wanted)
    ensures Shares(holder, wanted) <==> exists n :: Declared(holder, n) > 0.0 && Declared(wanted, n) > 0.0
  {
    if s :| s in holder.seats && s in wanted.seats && holder.seats[s] > 0 && wanted.seats[s] > 0 {
      assert Declared(holder, Seat(s)) > 0.0 && Declared(wanted, Seat(s)) > 0.0;
    }
    if n :| Declared(holder, n) > 0.0 && Declared(wanted, n) > 0.0 {
      if n.Seat? { assert n.tool in holder.seats; }
    }
    if holder.cpu > 0 && wanted.cpu > 0 { assert Declared(holder, Cpu) > 0.0 && Declared(wanted, Cpu) > 0.0; }
    if holder.mem > 0 && wanted.mem > 0 { assert Declared(holder, Mem) > 0.0 && Declared(wanted, Mem) > 0.0; }
  }

  /** A claim `row` would delay a ticket: the ticket declared nothing, or shares a resource with it and starts later
      beside it. */
  predicate Delays(row: Holding, t: Ticket, capacity: Capacity, held: seq<Holding>, reading: Reading, now: real) {
    match t.asked
    case Undeclared => true
    case Asks(wanted) =>
      && Shares(row.load, wanted)
      && var beside := Earliest(capacity, held + [row], reading, VectorOf(wanted), now);
         match Earliest(capacity, held, reading, VectorOf(wanted), now)
         case At(alone) => beside.Never? || beside.moment > alone
         case Never => false
  }

  lemma DelaysExactly(row: Holding, t: Ticket, capacity: Capacity, held: seq<Holding>, reading: Reading, now: real)
    ensures Blocks(t.asked, row, capacity, held, reading, now) <==> Delays(row, t, capacity, held, reading, now)
  {
    hide Earliest, Shares;
    if t.asked.Asks? { ContendsExactly(row.load, t.asked.load); }
  }

  lemma {:induction false} FirstAhead(tickets: seq<Ticket>, ticket: nat, row: Holding, capacity: Capacity,
                                      held: seq<Holding>, reading: Reading, now: real)
    ensures match BlockedBy(tickets, ticket, row, capacity, held, reading, now)
            case None => forall t :: t in tickets && t.id < ticket ==> !Delays(row, t, capacity, held, reading, now)
            case Some(id) =>
              exists k :: 0 <= k < |tickets| && tickets[k].id == id < ticket
                          && Delays(row, tickets[k], capacity, held, reading, now)
                          && forall j :: 0 <= j < k && tickets[j].id < ticket ==>
                                           !Delays(row, tickets[j], capacity, held, reading, now)
  {
    hide Blocks, Delays;
    if tickets != [] {
      DelaysExactly(row, tickets[0], capacity, held, reading, now);
      FirstAhead(tickets[1..], ticket, row, capacity, held, reading, now);
      assert tickets == [tickets[0]] + tickets[1..];
      if !(tickets[0].id < ticket && Delays(row, tickets[0], capacity, held, reading, now)) {
        var ahead := BlockedBy(tickets[1..], ticket, row, capacity, held, reading, now);
        if ahead.Some? {
          var k :| 0 <= k < |tickets[1..]| && tickets[1..][k].id == ahead.value < ticket
                   && Delays(row, tickets[1..][k], capacity, held, reading, now)
                   && forall j :: 0 <= j < k && tickets[1..][j].id < ticket ==>
                                    !Delays(row, tickets[1..][j], capacity, held, reading, now);
          assert tickets[k + 1] == tickets[1..][k];
          forall j | 0 <= j < k + 1 && tickets[j].id < ticket
            ensures !Delays(row, tickets[j], capacity, held, reading, now)
          {
            if j > 0 { assert tickets[j] == tickets[1..][j - 1]; }
          }
        }
      }
    }
  }

  /** An external claim, still unresolved, holds the key. */
  predicate Taken(claims: seq<Holding>, key: string) {
    exists h :: h in claims && h.key == key && h.external
  }

  predicate Holds(claims: seq<Holding>, pid: int) {
    exists h :: h in claims && h.pid == pid
  }

  /** Each amount asked is at most the room of its name for the asker. */
  predicate FitsNow(capacity: Capacity, claims: seq<Holding>, reading: Reading, demand: Vector, pid: int) {
    forall n :: n in demand ==> demand[n] <= RoomOf(capacity, claims, reading, Some(pid), n)
  }

  /** Some earlier ticket of the queue would be delayed. */
  predicate SomeDelayed(box: Box, ticket: nat, row: Holding, capacity: Capacity, reading: Reading) {
    exists t :: t in box.tickets && t.id < ticket && Delays(row, t, capacity, box.claims, reading, box.now)
  }

  /**
   WHEN A LOOK ADMITS, on the rows the reap leaves: exactly when no unresolved external claim holds its key, it fits the
   room, and the asker holds a claim already or no earlier ticket would be delayed. Each refusal says which of these
   failed, in that order, and names the first ticket ahead.
   */
  lemma WhenALookAdmits(box: Box, ticket: nat, pid: int, demand: Vector, wall: nat, key: string, capacity: Capacity,
                        reading: Reading, live: Liveness)
    ensures var rows := Reap(box, live);
            var row := Holding(rows.lastClaim + 1, pid, LoadOf(demand), rows.now + wall as real, rows.now, key, false,
                               false);
            var outcome := Try(box, ticket, pid, demand, wall, key, capacity, reading, live).1;
            var fits := FitsNow(capacity, rows.claims, reading, demand, pid);
            && (outcome.DuplicateKey? <==> Taken(rows.claims, key))
            && (outcome.NoRoom? <==> !Taken(rows.claims, key) && !fits)
            && (outcome.Admitted? <==>
                  !Taken(rows.claims, key) && fits
                  && (Holds(rows.claims, pid) || !SomeDelayed(rows, ticket, row, capacity, reading)))
            && (outcome.QueuedBehind? ==>
                  exists k :: 0 <= k < |rows.tickets| && rows.tickets[k].id == outcome.ticket < ticket
                              && Delays(row, rows.tickets[k], capacity, rows.claims, reading, rows.now)
                              && forall j :: 0 <= j < k && rows.tickets[j].id < ticket ==>
                                               !Delays(row, rows.tickets[j], capacity, rows.claims, reading, rows.now))
  {
    hide Decides, Reap, LoadOf, RoomOf, Delays, BlockedBy;
    var rows := Reap(box, live);
    DecidesIsRoom(capacity, rows.claims, reading, demand, Some(pid));
    FirstAhead(rows.tickets, ticket, RowOf(rows, pid, demand, wall, key), capacity, rows.claims, reading, rows.now);
  }

  /** A HOLDER IS NEVER ORDERED BEHIND A WAITER: a process with a claim is admitted as soon as it fits, whoever
      waits. */
  lemma AHolderNeverWaits(box: Box, ticket: nat, pid: int, demand: Vector, wall: nat, key: string, capacity: Capacity,
                          reading: Reading, live: Liveness)
    requires Holds(Reap(box, live).claims, pid) && !Taken(Reap(box, live).claims, key)
    requires FitsNow(capacity, Reap(box, live).claims, reading, demand, pid)
    ensures Try(box, ticket, pid, demand, wall, key, capacity, reading, live).1.Admitted?
  {
    hide Reap, Try, FitsNow, Delays;
    WhenALookAdmits(box, ticket, pid, demand, wall, key, capacity, reading, live);
  }

  /** What a look writes: on a yes one new row after the others, un-kept and the asker's, and its ticket gone; a held
      key leaves the ledger as it was, any other refusal what the reap leaves. */
  lemma WhatALookWrites(box: Box, ticket: nat, pid: int, demand: Vector, wall: nat, key: string, capacity: Capacity,
                        reading: Reading, live: Liveness)
    ensures var rows := Reap(box, live);
            var (after, outcome) := Try(box, ticket, pid, demand, wall, key, capacity, reading, live);
            var row := Holding(rows.lastClaim + 1, pid, LoadOf(demand), rows.now + wall as real, rows.now, key, false,
                               false);
            match outcome
            case DuplicateKey => after == box
            case Admitted(id, deadline) =>
              && id == row.id && deadline == row.deadline && after.claims == rows.claims + [row]
              && (forall t :: t in after.tickets <==> t in rows.tickets && t.id != ticket)
              && InOrder(after.tickets, rows.tickets)
              && after.lastClaim == row.id && after.now == rows.now && after.lastTicket == rows.lastTicket
            case _ => after == rows
  {
    hide Decides, Reap, LoadOf, BlockedBy, Select, InOrder;
    SelectMembers(Reap(box, live).tickets, OtherTicket(ticket));
    SelectInOrder(Reap(box, live).tickets, OtherTicket(ticket));
  }
}
