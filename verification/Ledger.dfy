/**
 The one ledger of claims and waiting tickets on a machine. Each public operation of the ledger is one atomic
 step on its rows (one immediate transaction); the reading and the processes found gone are inputs to a step.
 */
module Ledger {
  import opened Options
  import opened Vectors
  import opened Supply
  import opened Order

  /** How many seconds a claim that is due stays on the ledger. */
  const GRACE := 60.0
  /** The longest wall a claim may declare: seven days. */
  const WALL_CEILING := 604800.0

  /** A waiter: it holds nothing and orders what came later. */
  datatype Ticket = Ticket(id: nat, pid: int, givesUp: real, asked: Asked)

  /** The ledger file: rows oldest first, the clock, and the last row ids handed out (never used again). */
  datatype Box = Box(claims: seq<Holding>, tickets: seq<Ticket>, now: real, lastClaim: nat, lastTicket: nat)

  /** What a reap is told: processes found gone, and external claims whose liveness probe said the job is gone. */
  datatype Liveness = Liveness(gone: set<int>, dead: set<nat>)

  datatype Outcome =
    | Admitted(claim: nat, deadline: real)
    | NoRoom
    | QueuedBehind(ticket: nat)
    | DuplicateKey

  /** How a hold starts: refused as malformed, refused as larger than the box, or queued under a ticket. */
  datatype Arrival = Malformed | TooLarge | Queued(ticket: nat)

  /** The rows that `keep` keeps, in their order. */
  function Select<T>(rows: seq<T>, keep: T -> bool): seq<T> {
    if rows == [] then []
    else
      var row := rows[|rows| - 1];
      Select(rows[..|rows| - 1], keep) + if keep(row) then [row] else []
  }

  /** `some` is `all` with rows left out, none moved. */
  ghost predicate InOrder<T>(some: seq<T>, all: seq<T>) {
    if some == [] then true
    else if all == [] then false
    else
      var front := all[..|all| - 1];
      InOrder(some, front) || (some[|some| - 1] == all[|all| - 1] && InOrder(some[..|some| - 1], front))
  }

  lemma {:induction false} SelectMembers<T>(rows: seq<T>, keep: T -> bool)
    ensures forall r :: r in Select(rows, keep) <==> r in rows && keep(r)
  {
    if rows != [] {
      SelectMembers(rows[..|rows| - 1], keep);
      assert rows == rows[..|rows| - 1] + [rows[|rows| - 1]];
    }
  }

  lemma {:induction false} SelectInOrder<T>(rows: seq<T>, keep: T -> bool)
    ensures InOrder(Select(rows, keep), rows)
  {
    if rows != [] {
      var front := rows[..|rows| - 1];
      SelectInOrder(front, keep);
      var last := rows[|rows| - 1];
      assert Select(rows, keep) == if keep(last) then Select(front, keep) + [last] else Select(front, keep);
      assert (Select(front, keep) + [last])[..|Select(front, keep)|] == Select(front, keep);
    }
  }

  /** A row no admission could have written: it starts in the future, or ends past the wall ceiling. */
  predicate Impossible(h: Holding, now: real) {
    h.started > now + GRACE || h.deadline > now + WALL_CEILING + GRACE
  }

  /** A claim outlives a reap until its deadline plus the grace, while its process, or its external job, lives. */
  predicate Survives(h: Holding, now: real, live: Liveness) {
    && !Impossible(h, now)
    && h.deadline + GRACE >= now
    && (h.pid !in live.gone || (h.external && h.id !in live.dead))
  }

  predicate StillWaits(t: Ticket, now: real, live: Liveness) {
    && t.givesUp <= now + WALL_CEILING + GRACE
    && t.givesUp >= now
    && t.pid !in live.gone
  }

  function Surviving(now: real, live: Liveness): Holding -> bool {
    h => Survives(h, now, live)
  }

  function Waiting(now: real, live: Liveness): Ticket -> bool {
    t => StillWaits(t, now, live)
  }

  function OtherThan(claim: nat): Holding -> bool {
    (h: Holding) => h.id != claim
  }

  function OtherOrKept(claim: nat): Holding -> bool {
    (h: Holding) => h.id != claim || h.kept
  }

  function OtherTicket(ticket: nat): Ticket -> bool {
    (t: Ticket) => t.id != ticket
  }

  function Reap(box: Box, live: Liveness): Box {
    box.(claims := Select(box.claims, Surviving(box.now, live)),
         tickets := Select(box.tickets, Waiting(box.now, live)))
  }

  lemma ReapMovesNoClock(box: Box, live: Liveness)
    ensures Reap(box, live).now == box.now
    ensures Reap(box, live).lastTicket == box.lastTicket
    ensures Reap(box, live).lastClaim == box.lastClaim
  {
  }

  function DropTicket(box: Box, ticket: nat): Box {
    box.(tickets := Select(box.tickets, OtherTicket(ticket)))
  }

  function Release(box: Box, claim: nat): Box {
    box.(claims := Select(box.claims, OtherThan(claim)))
  }

  /** The end of a hold: its claim goes unless it was kept for a run, a vendor process or an external job. */
  function Leave(box: Box, claim: nat): Box {
    box.(claims := Select(box.claims, OtherOrKept(claim)))
  }

  /** `h` kept past its hold when it is row `claim`: for another process `holder`, or as an external job. */
  function Mark(h: Holding, claim: nat, holder: Option<int>, external: bool): Holding {
    if h.id != claim then h
    else h.(kept := true, pid := if holder.Some? then holder.value else h.pid, external := h.external || external)
  }

  function Marked(claims: seq<Holding>, claim: nat, holder: Option<int>, external: bool): seq<Holding> {
    if claims == [] then []
    else Marked(claims[..|claims| - 1], claim, holder, external) +
         [Mark(claims[|claims| - 1], claim, holder, external)]
  }

  lemma {:induction false} MarkedRows(claims: seq<Holding>, claim: nat, holder: Option<int>, external: bool)
    ensures |Marked(claims, claim, holder, external)| == |claims|
    ensures forall k :: 0 <= k < |claims| ==>
              Marked(claims, claim, holder, external)[k] == Mark(claims[k], claim, holder, external)
  {
    hide Mark;
    if claims != [] {
      MarkedRows(claims[..|claims| - 1], claim, holder, external);
    }
  }

  function HandOver(box: Box, claim: nat, pid: int): Box {
    box.(claims := Marked(box.claims, claim, Some(pid), false))
  }

  function KeepClaim(box: Box, claim: nat): Box {
    box.(claims := Marked(box.claims, claim, None, false))
  }

  function Persist(box: Box, claim: nat): Box {
    box.(claims := Marked(box.claims, claim, None, true))
  }

  function Tick(box: Box, now: real): Box {
    box.(now := now)
  }

  /** A hold's arguments: a bookable demand, and a wall and a queue limit the ledger may write. */
  predicate WellFormed(demand: Vector, wall: int, queue: real) {
    Checked(demand) && 0 < wall && wall as real <= WALL_CEILING && 0.0 <= queue <= WALL_CEILING
  }

  /** A demand larger than the box can never be admitted and takes no ticket. */
  predicate NeverFits(capacity: Capacity, demand: Vector) {
    exists n :: n in demand && demand[n] > Size(capacity, n)
  }

  function Arrive(box: Box, pid: int, demand: Vector, queue: real): Box {
    var id := box.lastTicket + 1;
    box.(tickets := box.tickets + [Ticket(id, pid, box.now + queue, Asks(LoadOf(demand)))], lastTicket := id)
  }

  // ----- the admission

  predicate KeyHeld(claims: seq<Holding>, key: string) {
    exists h :: h in claims && h.key == key && h.external
  }

  predicate HoldsAClaim(claims: seq<Holding>, pid: int) {
    exists h :: h in claims && h.pid == pid
  }

  /** The first earlier ticket, in order, that `jumper` would delay. */
  function BlockedBy(tickets: seq<Ticket>, ticket: nat, jumper: Holding, capacity: Capacity, held: seq<Holding>,
                     reading: Reading, now: real): Option<nat>
  {
    if tickets == [] then None
    else if tickets[0].id < ticket && Blocks(tickets[0].asked, jumper, capacity, held, reading, now)
    then Some(tickets[0].id)
    else BlockedBy(tickets[1..], ticket, jumper, capacity, held, reading, now)
  }

  /** The row an admission at `box.now` writes. */
  function RowOf(box: Box, pid: int, demand: Vector, wall: nat, key: string): Holding {
    Holding(box.lastClaim + 1, pid, LoadOf(demand), box.now + wall as real, box.now, key, false, false)
  }

  /** The decision on already reaped rows. */
  function Decision(box: Box, ticket: nat, pid: int, demand: Vector, wall: nat, key: string, capacity: Capacity,
                    reading: Reading): Outcome
  {
    if KeyHeld(box.claims, key) then DuplicateKey
    else if !Decides(capacity, box.claims, reading, demand, Some(pid)) then NoRoom
    else
      var jumper := RowOf(box, pid, demand, wall, key);
      var ahead := if HoldsAClaim(box.claims, pid) then None
                   else BlockedBy(box.tickets, ticket, jumper, capacity, box.claims, reading, box.now);
      if ahead.Some? then QueuedBehind(ahead.value) else Admitted(jumper.id, jumper.deadline)
  }

  function Admission(box: Box, ticket: nat, pid: int, demand: Vector, wall: nat, key: string): Box {
    var row := RowOf(box, pid, demand, wall, key);
    DropTicket(box.(claims := box.claims + [row], lastClaim := row.id), ticket)
  }

  /**
   One look at the ledger under its write lock: reap, decide, and on a yes write the claim and drop the ticket. A key
   still held is raised inside the transaction, which rolls back, so that refusal leaves the rows as they were.
   */
  function Try(box: Box, ticket: nat, pid: int, demand: Vector, wall: nat, key: string, capacity: Capacity,
               reading: Reading, live: Liveness): (Box, Outcome)
  {
    var reaped := Reap(box, live);
    var outcome := Decision(reaped, ticket, pid, demand, wall, key, capacity, reading);
    (match outcome
     case Admitted(_, _) => Admission(reaped, ticket, pid, demand, wall, key)
     case DuplicateKey => box
     case _ => reaped, outcome)
  }

  /** The ledger as a mutable object: every method is one transaction, and its specification the step it takes. */
  class LedgerFile {
    var claims: seq<Holding>
    var tickets: seq<Ticket>
    var now: real
    var lastClaim: nat
    var lastTicket: nat

    function Contents(): Box
      reads this
    {
      Box(claims, tickets, now, lastClaim, lastTicket)
    }

    constructor (start: real)
      ensures Contents() == Box([], [], start, 0, 0)
    {
      claims, tickets, now, lastClaim, lastTicket := [], [], start, 0, 0;
    }

    /** Exactly the rows that outlive the reap stay, in their order. */
    method ReapRows(live: Liveness)
      modifies this`claims, this`tickets
      ensures forall h :: h in claims <==> h in old(claims) && Survives(h, now, live)
      ensures forall t :: t in tickets <==> t in old(tickets) && StillWaits(t, now, live)
      ensures InOrder(claims, old(claims)) && InOrder(tickets, old(tickets))
      ensures Contents() == Reap(old(Contents()), live)
    {
      var kept: seq<Holding> := [];
      for i := 0 to |claims|
        invariant Contents() == old(Contents())
        invariant kept == Select(claims[..i], Surviving(now, live))
      {
        assert claims[..i + 1][..i] == claims[..i];
        if Survives(claims[i], now, live) { kept := kept + [claims[i]]; }
      }
      assert claims[..|claims|] == claims;
      var waiting: seq<Ticket> := [];
      for i := 0 to |tickets|
        invariant Contents() == old(Contents())
        invariant waiting == Select(tickets[..i], Waiting(now, live))
      {
        assert tickets[..i + 1][..i] == tickets[..i];
        if StillWaits(tickets[i], now, live) { waiting := waiting + [tickets[i]]; }
      }
      assert tickets[..|tickets|] == tickets;
      hide Select, InOrder, Survives, StillWaits;
      SelectMembers(claims, Surviving(now, live));
      SelectInOrder(claims, Surviving(now, live));
      SelectMembers(tickets, Waiting(now, live));
      SelectInOrder(tickets, Waiting(now, live));
      claims, tickets := kept, waiting;
    }

    method TakeTicket(pid: int, demand: Vector, wall: int, queue: real, capacity: Capacity) returns (arrival: Arrival)
      modifies this
      ensures arrival.Malformed? <==> !WellFormed(demand, wall, queue)
      ensures arrival.TooLarge? <==> WellFormed(demand, wall, queue) && NeverFits(capacity, demand)
      ensures if arrival.Queued? then Contents() == Arrive(old(Contents()), pid, demand, queue) &&
                                      arrival.ticket == lastTicket
              else Contents() == old(Contents())
    {
      if !WellFormed(demand, wall, queue) { return Malformed; }
      if NeverFits(capacity, demand) { return TooLarge; }
      lastTicket := lastTicket + 1;
      tickets := tickets + [Ticket(lastTicket, pid, now + queue, Asks(LoadOf(demand)))];
      arrival := Queued(lastTicket);
    }

    /** The earlier tickets in order, the first that `jumper` would delay. */
    method FirstDelayed(ticket: nat, jumper: Holding, capacity: Capacity, reading: Reading)
      returns (ahead: Option<nat>)
      ensures ahead == BlockedBy(tickets, ticket, jumper, capacity, claims, reading, now)
    {
      hide Blocks;
      for i := 0 to |tickets|
        invariant BlockedBy(tickets, ticket, jumper, capacity, claims, reading, now) ==
                  BlockedBy(tickets[i..], ticket, jumper, capacity, claims, reading, now)
      {
        if tickets[i].id < ticket && Blocks(tickets[i].asked, jumper, capacity, claims, reading, now) {
          return Some(tickets[i].id);
        }
        assert tickets[i..][1..] == tickets[i + 1..];
      }
      return None;
    }

    method TryNow(ticket: nat, pid: int, demand: Vector, wall: nat, key: string, capacity: Capacity, reading: Reading,
                  live: Liveness) returns (outcome: Outcome)
      requires WellFormed(demand, wall, 0.0)
      modifies this
      ensures var (box, said) := Try(old(Contents()), ticket, pid, demand, wall, key, capacity, reading, live);
              Contents() == box && outcome == said
    {
      hide Decides, Reap, BlockedBy, LoadOf, DropTicket;
      var claimsBefore, ticketsBefore := claims, tickets;
      ReapRows(live);
      ReapMovesNoClock(old(Contents()), live);
      if KeyHeld(claims, key) {
        claims, tickets := claimsBefore, ticketsBefore;
        return DuplicateKey;
      }
      if !Decides(capacity, claims, reading, demand, Some(pid)) { return NoRoom; }
      var jumper := Holding(lastClaim + 1, pid, LoadOf(demand), now + wall as real, now, key, false, false);
      if !HoldsAClaim(claims, pid) {
        var ahead := FirstDelayed(ticket, jumper, capacity, reading);
        if ahead.Some? { return QueuedBehind(ahead.value); }
      }
      claims, lastClaim := claims + [jumper], jumper.id;
      GiveUp(ticket);
      outcome := Admitted(jumper.id, jumper.deadline);
    }

    /** Exactly this ticket leaves the queue, whose order stays. */
    method GiveUp(ticket: nat)
      modifies this`tickets
      ensures forall t :: t in tickets <==> t in old(tickets) && t.id != ticket
      ensures InOrder(tickets, old(tickets))
      ensures Contents() == DropTicket(old(Contents()), ticket)
    {
      SelectMembers(tickets, OtherTicket(ticket));
      SelectInOrder(tickets, OtherTicket(ticket));
      tickets := Select(tickets, OtherTicket(ticket));
    }

    /** Exactly this claim leaves the ledger, kept or not. */
    method Drop(claim: nat)
      modifies this`claims
      ensures forall h :: h in claims <==> h in old(claims) && h.id != claim
      ensures InOrder(claims, old(claims))
      ensures Contents() == Release(old(Contents()), claim)
    {
      SelectMembers(claims, OtherThan(claim));
      SelectInOrder(claims, OtherThan(claim));
      claims := Select(claims, OtherThan(claim));
    }

    /** Exactly this claim leaves the ledger, unless it was kept. */
    method EndHold(claim: nat)
      modifies this`claims
      ensures forall h :: h in claims <==> h in old(claims) && (h.id != claim || h.kept)
      ensures InOrder(claims, old(claims))
      ensures Contents() == Leave(old(Contents()), claim)
    {
      SelectMembers(claims, OtherOrKept(claim));
      SelectInOrder(claims, OtherOrKept(claim));
      claims := Select(claims, OtherOrKept(claim));
    }

    /** Only this row changes: it is the other process's, and outlives its hold. */
    method GiveTo(claim: nat, pid: int)
      modifies this`claims
      ensures |claims| == |old(claims)|
      ensures forall k :: 0 <= k < |claims| ==>
                claims[k] == if old(claims)[k].id == claim then old(claims)[k].(pid := pid, kept := true)
                             else old(claims)[k]
      ensures Contents() == HandOver(old(Contents()), claim, pid)
    {
      MarkedRows(claims, claim, Some(pid), false);
      claims := Marked(claims, claim, Some(pid), false);
    }

    /** Only this row changes: it outlives the call that took it. */
    method KeepPastCall(claim: nat)
      modifies this`claims
      ensures |claims| == |old(claims)|
      ensures forall k :: 0 <= k < |claims| ==>
                claims[k] == if old(claims)[k].id == claim then old(claims)[k].(kept := true) else old(claims)[k]
      ensures Contents() == KeepClaim(old(Contents()), claim)
    {
      MarkedRows(claims, claim, None, false);
      claims := Marked(claims, claim, None, false);
    }

    /** Only this row changes: it outlives its hold and is reaped by its probe. */
    method MakeExternal(claim: nat)
      modifies this`claims
      ensures |claims| == |old(claims)|
      ensures forall k :: 0 <= k < |claims| ==>
                claims[k] == if old(claims)[k].id == claim then old(claims)[k].(kept := true, external := true)
                                        else old(claims)[k]
      ensures Contents() == Persist(old(Contents()), claim)
    {
      MarkedRows(claims, claim, None, true);
      claims := Marked(claims, claim, None, true);
    }

    /** A run takes over the claim its scheduler took for it: no second admission, and refused when the row is gone. */
    method Adopt(claim: nat, pid: int) returns (held: bool)
      modifies this
      ensures held <==> exists h :: h in old(claims) && h.id == claim
      ensures Contents() == if held then HandOver(old(Contents()), claim, pid) else old(Contents())
    {
      held := exists h :: h in claims && h.id == claim;
      if held { GiveTo(claim, pid); }
    }
  }
}
