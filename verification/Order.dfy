/**
 Backfill by reservation: when an earlier ticket could start at the soonest, and which later tickets may pass it because
 they leave that moment where it is.
 */
module Order {
  import opened Options
  import opened Vectors
  import opened Supply
  import opened Ordered

  /** What an earlier ticket's row says it asks; a row written before demands were declared says nothing. */
  datatype Asked = Undeclared | Asks(load: Load)

  /** The first moment a demand fits, or `Never`: used outside the ledger, not held by any claim. */
  datatype Start = At(moment: real) | Never

  predicate Later(a: Start, b: Start) {
    match (a, b)
    case (At(s), At(t)) => s > t
    case (Never, At(_)) => true
    case (_, Never) => false
  }

  predicate Fits(capacity: Capacity, held: seq<Holding>, reading: Reading, demand: Vector) {
    Decides(capacity, held, reading, demand, None)
  }

  /** Whether `holder` has some of what the ticket `ahead` asks; a ticket that declared nothing may want anything. */
  predicate Contends(holder: Load, ahead: Asked) {
    match ahead
    case Undeclared => true
    case Asks(wanted) =>
      || (wanted.cpu != 0 && holder.cpu != 0)
      || (wanted.mem != 0 && holder.mem != 0)
      || exists s :: s in holder.seats && holder.seats[s] != 0 && s in wanted.seats && wanted.seats[s] != 0
  }

  /** The claims ended by `moment`, or those still held after it. */
  function Gone(held: seq<Holding>, moment: real): seq<Holding> {
    if held == [] then []
    else
      var h := held[|held| - 1];
      Gone(held[..|held| - 1], moment) + if h.deadline <= moment then [h] else []
  }

  function Stay(held: seq<Holding>, moment: real): seq<Holding> {
    if held == [] then []
    else
      var h := held[|held| - 1];
      Stay(held[..|held| - 1], moment) + if h.deadline > moment then [h] else []
  }

  function SumResident(held: seq<Holding>, reading: Reading): nat {
    if held == [] then 0
    else
      var pid := held[|held| - 1].pid;
      SumResident(held[..|held| - 1], reading) +
      if pid in reading.usage then reading.usage[pid].resident else 0
  }

  /** The reading as it would be with `gone` ended: cores and memory come back, observed seats do not. */
  function Released(reading: Reading, gone: seq<Holding>): Reading {
    reading.(idle := reading.idle + SumUsed(gone, reading, Cpu),
             available := reading.available + SumResident(gone, reading))
  }

  /** Whether `demand` fits once every claim ending by `moment` left. */
  predicate FitsAfter(capacity: Capacity, held: seq<Holding>, reading: Reading, demand: Vector, moment: real) {
    Fits(capacity, Stay(held, moment), Released(reading, Gone(held, moment)), demand)
  }

  predicate IsDeadline(held: seq<Holding>, moment: real) {
    exists h :: h in held && h.deadline == moment
  }

  /** The distinct deadlines, soonest first. */
  function Moments(held: seq<Holding>): (r: seq<real>)
    ensures Ascending(r)
    ensures forall m :: m in r <==> IsDeadline(held, m)
  {
    if held == [] then []
    else
      assert held == held[..|held| - 1] + [held[|held| - 1]];
      Insert(held[|held| - 1].deadline, Moments(held[..|held| - 1]))
  }

  /** The first of `moments` at which `demand` fits. */
  function Scan(capacity: Capacity, held: seq<Holding>, reading: Reading, demand: Vector, moments: seq<real>): Start {
    if moments == [] then Never
    else if FitsAfter(capacity, held, reading, demand, moments[0]) then At(moments[0])
    else Scan(capacity, held, reading, demand, moments[1..])
  }

  function Earliest(capacity: Capacity, held: seq<Holding>, reading: Reading, demand: Vector, now: real): Start {
    if Fits(capacity, held, reading, demand) then At(now)
    else Scan(capacity, held, reading, demand, Moments(held))
  }

  /** Whether `jumper` has to wait for an earlier ticket that asks `asked`. */
  predicate Blocks(asked: Asked, jumper: Holding, capacity: Capacity, held: seq<Holding>, reading: Reading, now: real) {
    && Contends(jumper.load, asked)
    && match asked
       case Undeclared => true
       case Asks(load) =>
         Later(Earliest(capacity, held + [jumper], reading, VectorOf(load), now),
               Earliest(capacity, held, reading, VectorOf(load), now))
  }

  // ----- what the scan finds

  lemma {:induction false} ScanFindsFirst(capacity: Capacity, held: seq<Holding>, reading: Reading, demand: Vector,
                                          moments: seq<real>)
    requires Ascending(moments)
    ensures var s := Scan(capacity, held, reading, demand, moments);
            && (s.At? ==> s.moment in moments && FitsAfter(capacity, held, reading, demand, s.moment))
            && forall m :: m in moments && FitsAfter(capacity, held, reading, demand, m) ==> s.At? && s.moment <= m
  {
    hide FitsAfter;
    if moments != [] && !FitsAfter(capacity, held, reading, demand, moments[0]) {
      ScanFindsFirst(capacity, held, reading, demand, moments[1..]);
      assert moments == [moments[0]] + moments[1..];
    }
  }

  /** `earliest` is now when the demand fits, else the least deadline whose release makes it fit, else never. */
  lemma EarliestIsLeast(capacity: Capacity, held: seq<Holding>, reading: Reading, demand: Vector, now: real)
    ensures var s := Earliest(capacity, held, reading, demand, now);
            && (Fits(capacity, held, reading, demand) ==> s == At(now))
            && (!Fits(capacity, held, reading, demand) ==>
                  && (s.At? ==> IsDeadline(held, s.moment) && FitsAfter(capacity, held, reading, demand, s.moment))
                  && forall m :: IsDeadline(held, m) && FitsAfter(capacity, held, reading, demand, m) ==>
                                   s.At? && s.moment <= m)
  {
    hide Fits, FitsAfter;
    ScanFindsFirst(capacity, held, reading, demand, Moments(held));
  }

  // ----- one more claim

  lemma Appended(held: seq<Holding>, jumper: Holding)
    ensures (held + [jumper])[..|held|] == held
  {
  }

  lemma {:induction false} NobodyOwns(held: seq<Holding>)
    ensures Claims(held, None, false) == held && Claims(held, None, true) == []
  {
    if held != [] {
      NobodyOwns(held[..|held| - 1]);
    }
  }

  /** A claim whose process the reading does not name takes room, and none of a name it does not declare. */
  lemma OneMoreClaimTakesRoom(capacity: Capacity, held: seq<Holding>, reading: Reading, jumper: Holding, n: Name)
    requires jumper.pid !in reading.usage
    ensures RoomOf(capacity, held + [jumper], reading, None, n) <= RoomOf(capacity, held, reading, None, n)
    ensures Declared(jumper.load, n) == 0.0 ==>
              RoomOf(capacity, held + [jumper], reading, None, n) == RoomOf(capacity, held, reading, None, n)
  {
    Appended(held, jumper);
    NobodyOwns(held);
    NobodyOwns(held + [jumper]);
  }

  /** THE ROOM IS ANTITONE: what fits beside one more claim fitted without it; a disjoint claim changes nothing. */
  lemma FitsAntitone(capacity: Capacity, held: seq<Holding>, reading: Reading, jumper: Holding, demand: Vector)
    requires jumper.pid !in reading.usage
    ensures Fits(capacity, held + [jumper], reading, demand) ==> Fits(capacity, held, reading, demand)
    ensures (forall n :: n in demand ==> Declared(jumper.load, n) == 0.0) ==>
              (Fits(capacity, held + [jumper], reading, demand) <==> Fits(capacity, held, reading, demand))
  {
    DecidesIsRoom(capacity, held, reading, demand, None);
    DecidesIsRoom(capacity, held + [jumper], reading, demand, None);
    forall n | n in demand {
      OneMoreClaimTakesRoom(capacity, held, reading, jumper, n);
    }
  }

  lemma FitsAfterAntitone(capacity: Capacity, held: seq<Holding>, reading: Reading, jumper: Holding, demand: Vector,
                          moment: real)
    requires jumper.pid !in reading.usage
    ensures FitsAfter(capacity, held + [jumper], reading, demand, moment) ==>
              FitsAfter(capacity, held, reading, demand, moment)
    ensures (forall n :: n in demand ==> Declared(jumper.load, n) == 0.0) || jumper.deadline <= moment ==>
              (FitsAfter(capacity, held + [jumper], reading, demand, moment) <==>
               FitsAfter(capacity, held, reading, demand, moment))
  {
    Appended(held, jumper);
    var gone := Gone(held, moment);
    if jumper.deadline <= moment {
      Appended(gone, jumper);
      assert Released(reading, gone + [jumper]) == Released(reading, gone);
      assert Stay(held, moment) + [] == Stay(held, moment);
    } else {
      assert gone + [] == gone;
      FitsAntitone(capacity, Stay(held, moment), Released(reading, gone), jumper, demand);
    }
  }

  lemma SplitsAppend(held: seq<Holding>, h: Holding, moment: real)
    ensures Stay(held + [h], moment) == if h.deadline > moment then Stay(held, moment) + [h] else Stay(held, moment)
    ensures Gone(held + [h], moment) == if h.deadline > moment then Gone(held, moment) else Gone(held, moment) + [h]
  {
    Appended(held, h);
    assert Stay(held, moment) + [] == Stay(held, moment);
    assert Gone(held, moment) + [] == Gone(held, moment);
  }

  lemma {:induction false} NothingGone(held: seq<Holding>, moment: real)
    requires forall h :: h in held ==> h.deadline > moment
    ensures Stay(held, moment) == held
    ensures Gone(held, moment) == []
  {
    if held != [] {
      var front, h := held[..|held| - 1], held[|held| - 1];
      NothingGone(front, moment);
      assert h in held;
      assert Stay(held, moment) == front + [h];
      assert Gone(held, moment) == [] + [];
    }
  }

  lemma {:induction false} SameSplit(held: seq<Holding>, earlier: real, later: real)
    requires earlier <= later && forall h :: h in held ==> !(earlier < h.deadline <= later)
    ensures Stay(held, earlier) == Stay(held, later) && Gone(held, earlier) == Gone(held, later)
  {
    if held == [] {
      assert Stay(held, earlier) == [] == Gone(held, earlier) && Stay(held, later) == [] == Gone(held, later);
    } else {
      hide Stay, Gone;
      var front, h := held[..|held| - 1], held[|held| - 1];
      assert h in held && forall g :: g in front ==> g in held;
      SameSplit(front, earlier, later);
      assert held == front + [h];
      SplitsAppend(front, h, earlier);
      SplitsAppend(front, h, later);
    }
  }

  /** The last deadline not after `moment`. */
  lemma {:induction false} LastDeadline(held: seq<Holding>, moment: real) returns (last: real)
    requires exists h :: h in held && h.deadline <= moment
    ensures IsDeadline(held, last) && last <= moment
    ensures forall h :: h in held ==> !(last < h.deadline <= moment)
  {
    var front, h := held[..|held| - 1], held[|held| - 1];
    assert held == front + [h];
    if exists g :: g in front && g.deadline <= moment {
      last := LastDeadline(front, moment);
      if last < h.deadline <= moment { last := h.deadline; }
    } else {
      last := h.deadline;
    }
    assert IsDeadline(held, last) by {
      if last == h.deadline { assert h in held; }
      else {
        var g :| g in front && g.deadline == last;
        assert g in held;
      }
    }
  }

  /** What `demand` finds at any moment it finds now, or at the last deadline before that moment. */
  lemma FitsAfterIsEventful(capacity: Capacity, held: seq<Holding>, reading: Reading, demand: Vector, moment: real)
    requires FitsAfter(capacity, held, reading, demand, moment)
    ensures Fits(capacity, held, reading, demand) ||
            exists last :: last <= moment && IsDeadline(held, last) && FitsAfter(capacity, held, reading, demand, last)
  {
    hide Fits;
    if exists h :: h in held && h.deadline <= moment {
      var last := LastDeadline(held, moment);
      SameSplit(held, last, moment);
    } else {
      NothingGone(held, moment);
      assert Released(reading, []) == reading;
    }
  }

  /** A moment at which `demand` fits is not before `earliest`, be it a deadline or any other (`now` aside). */
  lemma EarliestNotAfter(capacity: Capacity, held: seq<Holding>, reading: Reading, demand: Vector, now: real,
                         moment: real)
    requires FitsAfter(capacity, held, reading, demand, moment)
    ensures Earliest(capacity, held, reading, demand, now).At?
    ensures Fits(capacity, held, reading, demand) || Earliest(capacity, held, reading, demand, now).moment <= moment
  {
    hide Fits, FitsAfter;
    EarliestIsLeast(capacity, held, reading, demand, now);
    FitsAfterIsEventful(capacity, held, reading, demand, moment);
  }

  /** No row outlives its deadline: a holder ends by its wall. */
  predicate NoneOverdue(held: seq<Holding>, now: real) {
    forall h :: h in held ==> h.deadline >= now
  }

  /** With no overdue row, one more claim never lets a ticket start sooner. */
  lemma EarliestAntitone(capacity: Capacity, held: seq<Holding>, reading: Reading, jumper: Holding, demand: Vector,
                         now: real)
    requires jumper.pid !in reading.usage
    requires NoneOverdue(held, now) && jumper.deadline >= now
    ensures !Later(Earliest(capacity, held, reading, demand, now),
                   Earliest(capacity, held + [jumper], reading, demand, now))
  {
    hide Fits, FitsAfter;
    var after := Earliest(capacity, held + [jumper], reading, demand, now);
    EarliestIsLeast(capacity, held + [jumper], reading, demand, now);
    EarliestIsLeast(capacity, held, reading, demand, now);
    FitsAntitone(capacity, held, reading, jumper, demand);
    if after.At? && !Fits(capacity, held, reading, demand) {
      FitsAfterAntitone(capacity, held, reading, jumper, demand, after.moment);
      EarliestNotAfter(capacity, held, reading, demand, now, after.moment);
    }
  }

  /** A disjoint claim moves no start: its own deadline is one more moment to look at, and a useless one. */
  lemma DisjointClaimMovesNothing(capacity: Capacity, held: seq<Holding>, reading: Reading, jumper: Holding,
                                  demand: Vector, now: real)
    requires jumper.pid !in reading.usage
    requires forall n :: n in demand ==> Declared(jumper.load, n) == 0.0
    ensures Earliest(capacity, held + [jumper], reading, demand, now) == Earliest(capacity, held, reading, demand, now)
  {
    hide Fits, FitsAfter;
    var before := Earliest(capacity, held, reading, demand, now);
    var after := Earliest(capacity, held + [jumper], reading, demand, now);
    EarliestIsLeast(capacity, held + [jumper], reading, demand, now);
    EarliestIsLeast(capacity, held, reading, demand, now);
    FitsAntitone(capacity, held, reading, jumper, demand);
    if !Fits(capacity, held, reading, demand) {
      if before.At? {
        FitsAfterAntitone(capacity, held, reading, jumper, demand, before.moment);
        EarliestNotAfter(capacity, held + [jumper], reading, demand, now, before.moment);
      }
      if after.At? {
        FitsAfterAntitone(capacity, held, reading, jumper, demand, after.moment);
        EarliestNotAfter(capacity, held, reading, demand, now, after.moment);
      }
    }
  }

  lemma NotContending(holder: Load, wanted: Load)
    requires !Contends(holder, Asks(wanted))
    ensures forall n :: n in VectorOf(wanted) ==> Declared(holder, n) == 0.0
  {
    forall n | n in VectorOf(wanted)
      ensures Declared(holder, n) == 0.0
    {
      assert Amount(VectorOf(wanted), n) > 0.0;
    }
  }

  /**
   BACKFILL NEVER DELAYS: a jumper that an earlier declared ticket does not block leaves that ticket's earliest
   start unchanged, whatever the reading says, as long as no held row is past its deadline.
   */
  lemma BackfillNeverDelays(wanted: Load, jumper: Holding, capacity: Capacity, held: seq<Holding>, reading: Reading,
                            now: real)
    requires !Blocks(Asks(wanted), jumper, capacity, held, reading, now)
    requires jumper.pid !in reading.usage
    requires NoneOverdue(held, now) && jumper.deadline >= now
    ensures Earliest(capacity, held + [jumper], reading, VectorOf(wanted), now) ==
            Earliest(capacity, held, reading, VectorOf(wanted), now)
  {
    if Contends(jumper.load, Asks(wanted)) {
      EarliestAntitone(capacity, held, reading, jumper, VectorOf(wanted), now);
    } else {
      NotContending(jumper.load, wanted);
      DisjointClaimMovesNothing(capacity, held, reading, jumper, VectorOf(wanted), now);
    }
  }

  /**
   Overdue rows are the only way past the rule. A jumper that is not blocked changes an earlier ticket's earliest
   start exactly when the ticket fits now, and beside the jumper fits only once some row already past its deadline
   leaves: the start then reads as that past deadline, no later than now, though the ticket must wait for the row.
   */
  lemma OverdueRowsHideADelay(wanted: Load, jumper: Holding, capacity: Capacity, held: seq<Holding>, reading: Reading,
                              now: real)
    requires !Blocks(Asks(wanted), jumper, capacity, held, reading, now)
    requires jumper.pid !in reading.usage && jumper.deadline >= now
    ensures var demand := VectorOf(wanted);
            Earliest(capacity, held + [jumper], reading, demand, now) != Earliest(capacity, held, reading, demand, now)
            <==>
            && Fits(capacity, held, reading, demand)
            && !Fits(capacity, held + [jumper], reading, demand)
            && exists h :: h in held && h.deadline < now &&
                           FitsAfter(capacity, held + [jumper], reading, demand, h.deadline)
  {
    hide Fits, FitsAfter;
    var demand := VectorOf(wanted);
    var before := Earliest(capacity, held, reading, demand, now);
    var after := Earliest(capacity, held + [jumper], reading, demand, now);
    EarliestIsLeast(capacity, held + [jumper], reading, demand, now);
    EarliestIsLeast(capacity, held, reading, demand, now);
    FitsAntitone(capacity, held, reading, jumper, demand);
    if !Contends(jumper.load, Asks(wanted)) {
      NotContending(jumper.load, wanted);
      DisjointClaimMovesNothing(capacity, held, reading, jumper, demand, now);
    } else if Fits(capacity, held, reading, demand) {
      assert !Later(after, before);
      assert after.At? && after.moment <= now;
      forall h | h in held && FitsAfter(capacity, held + [jumper], reading, demand, h.deadline)
        ensures Fits(capacity, held + [jumper], reading, demand) || after.moment <= h.deadline
      {
        EarliestNotAfter(capacity, held + [jumper], reading, demand, now, h.deadline);
      }
      if !Fits(capacity, held + [jumper], reading, demand) && after.moment < now {
        var h :| h in held + [jumper] && h.deadline == after.moment;
        assert h in held;
      }
    } else if after.At? {
      FitsAfterAntitone(capacity, held, reading, jumper, demand, after.moment);
      EarliestNotAfter(capacity, held, reading, demand, now, after.moment);
    }
  }
}
