/** Max-min fair shares of an account pool: the smallest demands met in full, the rest splitting what is left. */
module Allocation {
  import opened Options
  import opened Sums

  datatype Quantity = Finite(value: real) | Infinite

  type Stream = string
  type Demands = map<Stream, Quantity>

  predicate Above(demand: Quantity, level: real) {
    demand.Infinite? || demand.value > level
  }

  /** What a stream of this demand takes at this level. */
  function Taken(demand: Quantity, level: real): real {
    if Above(demand, level) then level else demand.value
  }

  function TakenBy(demands: Demands, level: real): Stream -> real {
    (n: Stream) => if n in demands then Taken(demands[n], level) else 0.0
  }

  /** `names` lists the streams, each once. */
  ghost predicate Lists(demands: Demands, names: seq<Stream>) {
    Distinct(names) && forall n :: n in demands <==> n in names
  }

  /** What all the streams take at this level. */
  function Water(demands: Demands, names: seq<Stream>, level: real): real {
    Sum(names, TakenBy(demands, level))
  }

  /** THE FAIR LEVEL: it spends the capacity exactly, or meets every demand within it. */
  predicate FairLevel(demands: Demands, names: seq<Stream>, capacity: real, level: real) {
    || Water(demands, names, level) == capacity
    || (Water(demands, names, level) <= capacity
        && forall n :: n in names && n in demands ==> !Above(demands[n], level))
  }

  function SharesAt(demands: Demands, level: real): Demands {
    map n | n in demands :: Finite(Taken(demands[n], level))
  }

  /** Streams in the order of their demands, ties in any order. */
  predicate SmallestFirst(demands: Demands, names: seq<Stream>) {
    forall i, j :: 0 <= i < j < |names| && names[i] in demands && names[j] in demands ==>
                     demands[names[j]].Infinite? || !Above(demands[names[i]], demands[names[j]].value)
  }

  /** What a stream wants, where that is finite. */
  function Wanted(demands: Demands): Stream -> real {
    (n: Stream) => if n in demands && demands[n].Finite? then demands[n].value else 0.0
  }

  /** The first `k` streams have what they demand, and no other stream has a share. */
  predicate Met(demands: Demands, waiting: seq<Stream>, k: nat, shares: Demands)
    requires k <= |waiting|
  {
    && (forall i :: 0 <= i < k ==> waiting[i] in demands && demands[waiting[i]].Finite?)
    && shares == map n | n in waiting[..k] && n in demands :: demands[n]
  }

  /** `waiting` is the streams sorted by demand; the shares are those of one common level whatever the ties. */
  method Fair(capacity: Quantity, demands: Demands, waiting: seq<Stream>) returns (shares: Demands, ghost level: real)
    requires Lists(demands, waiting) && SmallestFirst(demands, waiting) && (capacity.Finite? ==> capacity.value >= 0.0)
    ensures capacity.Infinite? ==> shares == demands
    ensures capacity.Finite? ==>
              FairLevel(demands, waiting, capacity.value, level) && shares == SharesAt(demands, level)
  {
    hide SmallestFirst, FairLevel, SharesAt, Met, Sum;
    level := 0.0;
    if capacity.Infinite? { return demands, level; }
    shares := map[];
    var left := capacity.value;
    var k := 0;
    NothingMet(demands, waiting);
    while k < |waiting|
      invariant 0 <= k <= |waiting| && left >= 0.0 && left >= level * (|waiting| - k) as real
      invariant Met(demands, waiting, k, shares)
      invariant Sum(waiting[..k], Wanted(demands)) == capacity.value - left
      invariant forall i :: 0 <= i < k ==> waiting[i] in demands && !Above(demands[waiting[i]], level)
    {
      var each := left / (|waiting| - k) as real;
      var name := waiting[k];
      EachIsMore(left, level, (|waiting| - k) as real);
      if Above(demands[name], each) {
        RestSplits(demands, waiting, k, shares, capacity.value, left, each);
        shares := map n | n in demands :: if n in shares then shares[n] else Finite(each);
        return shares, each;
      }
      MeetOne(demands, waiting, k, shares, left, each);
      shares := shares[name := demands[name]];
      left := left - demands[name].value;
      level := each;
      k := k + 1;
    }
    assert waiting[..k] == waiting;
    AllMet(demands, waiting, shares, capacity.value, level);
  }

  lemma NothingMet(demands: Demands, waiting: seq<Stream>)
    ensures Met(demands, waiting, 0, map[]) && Sum(waiting[..0], Wanted(demands)) == 0.0
  {
  }

  lemma EachIsMore(left: real, level: real, count: real)
    requires count > 0.0 && left >= level * count && left >= 0.0
    ensures left / count >= level && left / count >= 0.0 && left / count * count == left
  {
    var each := left / count;
    assert each * count == left;
    if each < level { assert (level - each) * count > 0.0; }
  }

  lemma MeetOne(demands: Demands, waiting: seq<Stream>, k: nat, shares: Demands, left: real, each: real)
    requires k < |waiting| && Lists(demands, waiting) && Met(demands, waiting, k, shares)
    requires !Above(demands[waiting[k]], each) && left == each * (|waiting| - k) as real && each >= 0.0
    ensures var name := waiting[k];
            && Met(demands, waiting, k + 1, shares[name := demands[name]])
            && left - demands[name].value >= each * (|waiting| - (k + 1)) as real
            && left - demands[name].value >= 0.0
            && Sum(waiting[..k + 1], Wanted(demands)) == Sum(waiting[..k], Wanted(demands)) + demands[name].value
  {
    assert waiting[..k + 1][..k] == waiting[..k];
    var rest := (|waiting| - (k + 1)) as real;
    assert each * (|waiting| - k) as real == each * rest + each;
    assert each * rest >= 0.0;
  }

  lemma {:induction false} SameSum(names: seq<Stream>, g: Stream -> real, h: Stream -> real)
    requires forall i :: 0 <= i < |names| ==> g(names[i]) == h(names[i])
    ensures Sum(names, g) == Sum(names, h)
  {
    if names != [] {
      SameSum(names[..|names| - 1], g, h);
    }
  }

  lemma {:induction false} TailOf(names: seq<Stream>, g: Stream -> real, k: nat, each: real)
    requires k <= |names| && forall i :: k <= i < |names| ==> g(names[i]) == each
    ensures Sum(names, g) == Sum(names[..k], g) + each * (|names| - k) as real
    decreases |names|
  {
    if k == |names| {
      assert names[..k] == names;
    } else {
      var front := names[..|names| - 1];
      TailOf(front, g, k, each);
      assert front[..k] == names[..k];
      assert each * (|names| - k) as real == each * (|front| - k) as real + each;
    }
  }

  /** Where the next demand is above an even split, everyone left takes that split and the capacity is spent. */
  lemma RestSplits(demands: Demands, waiting: seq<Stream>, k: nat, shares: Demands, capacity: real, left: real,
                   each: real)
    requires k < |waiting| && Lists(demands, waiting) && SmallestFirst(demands, waiting) &&
             Met(demands, waiting, k, shares)
    requires Above(demands[waiting[k]], each) && left == each * (|waiting| - k) as real
    requires Sum(waiting[..k], Wanted(demands)) == capacity - left
    requires forall i :: 0 <= i < k ==> waiting[i] in demands && !Above(demands[waiting[i]], each)
    ensures FairLevel(demands, waiting, capacity, each)
    ensures (map n | n in demands :: if n in shares then shares[n] else Finite(each)) == SharesAt(demands, each)
  {
    hide Sum;
    forall i | k <= i < |waiting|
      ensures waiting[i] in demands && Above(demands[waiting[i]], each)
    {
      assert waiting[i] in waiting && waiting[k] in waiting;
    }
    TailOf(waiting, TakenBy(demands, each), k, each);
    SameSum(waiting[..k], TakenBy(demands, each), Wanted(demands));
    forall n | n in demands
      ensures (if n in shares then shares[n] else Finite(each)) == Finite(Taken(demands[n], each))
    {
      var i :| 0 <= i < |waiting| && waiting[i] == n;
      if i < k {
        assert waiting[..k][i] == n;
      } else {
        NotBefore(waiting, k, i);
      }
    }
  }

  lemma NotBefore(names: seq<Stream>, k: nat, i: nat)
    requires Distinct(names) && k <= i < |names|
    ensures names[i] !in names[..k]
  {
  }

  lemma AllMet(demands: Demands, waiting: seq<Stream>, shares: Demands, capacity: real, level: real)
    requires Lists(demands, waiting) && Met(demands, waiting, |waiting|, shares)
    requires Sum(waiting, Wanted(demands)) <= capacity
    requires forall i :: 0 <= i < |waiting| ==> waiting[i] in demands && !Above(demands[waiting[i]], level)
    ensures FairLevel(demands, waiting, capacity, level) && shares == SharesAt(demands, level)
  {
    assert waiting[..|waiting|] == waiting;
    SameSum(waiting, TakenBy(demands, level), Wanted(demands));
  }

  // ----- one level

  lemma WaterRises(demands: Demands, names: seq<Stream>, low: real, high: real)
    requires low <= high
    ensures Water(demands, names, low) <= Water(demands, names, high)
  {
    SumAtMost(names, TakenBy(demands, low), TakenBy(demands, high));
  }

  /** Sums in step: pointwise at most and equal in all, so equal at every name. */
  lemma {:induction false} EqualAtEach(names: seq<Stream>, g: Stream -> real, h: Stream -> real, n: Stream)
    requires (forall x :: x in names ==> g(x) <= h(x)) && Sum(names, g) >= Sum(names, h) && n in names
    ensures g(n) == h(n)
  {
    var front, last := names[..|names| - 1], names[|names| - 1];
    assert names == front + [last] && last in names;
    SumAtMost(front, g, h);
    if n != last {
      EqualAtEach(front, g, h, n);
    }
  }

  /** Raising the capacity lowers nobody. */
  lemma MoreCapacityLowersNobody(demands: Demands, names: seq<Stream>, less: real, more: real, low: real, high: real,
                                 n: Stream)
    requires Lists(demands, names) && less <= more && n in demands
    requires FairLevel(demands, names, less, low) && FairLevel(demands, names, more, high)
    ensures Taken(demands[n], low) <= Taken(demands[n], high)
  {
    if high < low {
      WaterRises(demands, names, high, low);
      if Water(demands, names, high) == more {
        EqualAtEach(names, TakenBy(demands, high), TakenBy(demands, low), n);
      }
    }
  }

  /** THE FAIR SHARES ARE UNIQUE: any two fair levels give every stream the same, so ties cannot matter. */
  lemma FairIsUnique(demands: Demands, names: seq<Stream>, others: seq<Stream>, capacity: real, one: real, other: real)
    requires Lists(demands, names) && Lists(demands, others)
    requires FairLevel(demands, names, capacity, one) && FairLevel(demands, others, capacity, other)
    ensures SharesAt(demands, one) == SharesAt(demands, other)
  {
    SameStreams(demands, names, others, other);
    forall n | n in demands
      ensures Taken(demands[n], one) == Taken(demands[n], other)
    {
      MoreCapacityLowersNobody(demands, names, capacity, capacity, one, other, n);
      MoreCapacityLowersNobody(demands, names, capacity, capacity, other, one, n);
    }
  }

  lemma SameStreams(demands: Demands, names: seq<Stream>, others: seq<Stream>, level: real)
    requires Lists(demands, names) && Lists(demands, others)
    ensures Water(demands, names, level) == Water(demands, others, level)
  {
    OnceEach(names);
    OnceEach(others);
    forall n
      ensures multiset(names)[n] == multiset(others)[n]
    {
      assert n in names <==> n in others;
    }
    assert multiset(names) == multiset(others);
    SumPermuted(names, others, TakenBy(demands, level));
  }

  lemma {:induction false} OnceEach(names: seq<Stream>)
    requires Distinct(names)
    ensures forall n :: multiset(names)[n] == if n in names then 1 else 0
  {
    if names != [] {
      var front, last := names[..|names| - 1], names[|names| - 1];
      assert names == front + [last] && last !in front;
      OnceEach(front);
    }
  }

  /** What is not met is spent: the shares sum to the capacity when some demand is not met, else to the demands. */
  lemma FairSpends(demands: Demands, names: seq<Stream>, capacity: real, level: real)
    requires Lists(demands, names) && FairLevel(demands, names, capacity, level)
    ensures Water(demands, names, level) <= capacity
    ensures (exists n :: n in names && n in demands && Above(demands[n], level)) ==>
            Water(demands, names, level) == capacity
    ensures (forall n :: n in names && n in demands ==> !Above(demands[n], level)) ==>
              Water(demands, names, level) == Sum(names, Wanted(demands))
  {
    if forall n :: n in names && n in demands ==> !Above(demands[n], level) {
      SameSum(names, TakenBy(demands, level), Wanted(demands));
    }
  }

  /** Raising one stream's demand raises nobody else's share. */
  lemma OneDemandRaisesNobodyElse(demands: Demands, names: seq<Stream>, capacity: real, k: Stream, more: Quantity,
                                  before: real, after: real, n: Stream)
    requires Lists(demands, names) && k in demands && n in demands && n != k
    requires demands[k].Finite? && (more.Infinite? || more.value >= demands[k].value)
    requires FairLevel(demands, names, capacity, before) && FairLevel(demands[k := more], names, capacity, after)
    ensures Taken(demands[n], after) <= Taken(demands[n], before)
  {
    var raised := demands[k := more];
    if before < after && Water(demands, names, before) == capacity {
      forall x | x in names
        ensures TakenBy(demands, before)(x) <= TakenBy(raised, after)(x)
      {
      }
      FairSpends(raised, names, capacity, after) by { assert Lists(raised, names); }
      EqualAtEach(names, TakenBy(demands, before), TakenBy(raised, after), n);
    }
  }

  // ----- max-min

  /** Nobody beyond its demand, and no more in all than there is. */
  predicate Feasible(demands: Demands, names: seq<Stream>, capacity: real, a: Stream -> real) {
    && (forall n :: n in names && n in demands && demands[n].Finite? ==> a(n) <= demands[n].value)
    && Sum(names, a) <= capacity
  }

  /** No feasible allocation gives a stream more without giving one that had no more than it less. */
  ghost predicate MaxMin(demands: Demands, names: seq<Stream>, capacity: real, a: Stream -> real) {
    && Feasible(demands, names, capacity, a)
    && forall b: Stream -> real, n ::
         Feasible(demands, names, capacity, b) && n in names && b(n) > a(n) ==>
           exists m :: m in names && b(m) < a(m) && a(m) <= a(n)
  }

  lemma SomeoneLess(names: seq<Stream>, a: Stream -> real, b: Stream -> real, n: Stream) returns (m: Stream)
    requires n in names && b(n) > a(n) && Sum(names, b) <= Sum(names, a)
    ensures m in names && b(m) < a(m)
  {
    if forall x :: x in names ==> a(x) <= b(x) {
      EqualAtEach(names, a, b, n);
    }
    m :| m in names && b(m) < a(m);
  }

  /** The fair shares are max-min. */
  lemma FairIsMaxMin(demands: Demands, names: seq<Stream>, capacity: real, level: real)
    requires Lists(demands, names) && FairLevel(demands, names, capacity, level)
    ensures MaxMin(demands, names, capacity, TakenBy(demands, level))
  {
    var a := TakenBy(demands, level);
    forall b: Stream -> real, n | Feasible(demands, names, capacity, b) && n in names && b(n) > a(n)
      ensures exists m :: m in names && b(m) < a(m) && a(m) <= a(n)
    {
      assert Above(demands[n], level);
      FairSpends(demands, names, capacity, level);
      var m := SomeoneLess(names, a, b, n);
      assert a(m) <= level == a(n);
    }
  }

  /** The names where `a` gives more than `b`, of which the one `b` gives least. */
  lemma {:induction false} LeastOf(names: seq<Stream>, a: Stream -> real, b: Stream -> real,
                                   n: Stream)
    returns (m: Stream)
    requires n in names && a(n) > b(n)
    ensures m in names && a(m) > b(m) && forall x :: x in names && a(x) > b(x) ==> b(m) <= b(x)
  {
    var front, last := names[..|names| - 1], names[|names| - 1];
    assert names == front + [last];
    if x :| x in front && a(x) > b(x) {
      m := LeastOf(front, a, b, x);
      if a(last) > b(last) && b(last) < b(m) { m := last; }
    } else {
      m := last;
    }
  }

  /** The stream that pays where a feasible `b` gives more than a max-min `a`. */
  lemma Payer(demands: Demands, names: seq<Stream>, capacity: real, a: Stream -> real, b: Stream -> real, n: Stream)
    returns (m: Stream)
    requires MaxMin(demands, names, capacity, a) && MaxMin(demands, names, capacity, b) && n in names && b(n) > a(n)
    ensures m in names && b(m) < a(m) && a(m) <= a(n)
  {
    hide Feasible;
    m :| m in names && b(m) < a(m) && a(m) <= a(n);
  }

  /** Where `a` gives more than `b`, it also does at a name `b` gives less still. */
  lemma Descends(demands: Demands, names: seq<Stream>, capacity: real, a: Stream -> real, b: Stream -> real, n: Stream)
    returns (k: Stream)
    requires MaxMin(demands, names, capacity, a) && MaxMin(demands, names, capacity, b) && n in names && a(n) > b(n)
    ensures k in names && a(k) > b(k) && b(k) < b(n)
  {
    hide MaxMin, Feasible;
    var m := Payer(demands, names, capacity, b, a, n);
    k := Payer(demands, names, capacity, a, b, m);
  }

  lemma NoMoreThan(demands: Demands, names: seq<Stream>, capacity: real, a: Stream -> real, b: Stream -> real,
                   n: Stream)
    requires MaxMin(demands, names, capacity, a) && MaxMin(demands, names, capacity, b) && n in names
    ensures a(n) <= b(n)
  {
    hide MaxMin;
    if a(n) > b(n) {
      var least := LeastOf(names, a, b, n);
      var k := Descends(demands, names, capacity, a, b, least);
    }
  }

  /** A max-min allocation is unique, so the fair shares are the one there is. */
  lemma MaxMinIsFair(demands: Demands, names: seq<Stream>, capacity: real, level: real, a: Stream -> real, n: Stream)
    requires Lists(demands, names) && FairLevel(demands, names, capacity, level)
    requires MaxMin(demands, names, capacity, a) && n in names
    ensures a(n) == Taken(demands[n], level)
  {
    FairIsMaxMin(demands, names, capacity, level);
    NoMoreThan(demands, names, capacity, a, TakenBy(demands, level), n);
    NoMoreThan(demands, names, capacity, TakenBy(demands, level), a, n);
  }

  // ----- a session's derived share, and the tasks it may still start

  /** A session's share among the active streams: it asks everything there is. */
  function Asking(others: Demands, name: Stream): Demands {
    others[name := Infinite]
  }

  /** The session asking everything takes the level itself: no less than anybody, no less than an even part, and
      together with the others exactly what there is. */
  lemma DerivedShare(others: Demands, name: Stream, names: seq<Stream>, capacity: real, level: real)
    requires Lists(Asking(others, name), names) && FairLevel(Asking(others, name), names, capacity, level)
    ensures Taken(Infinite, level) == level
    ensures forall n :: n in others && n != name ==> Taken(others[n], level) <= level
    ensures Water(Asking(others, name), names, level) == capacity
    ensures |names| as real * level >= capacity
  {
    hide Sum, FairLevel;
    var demands := Asking(others, name);
    assert name in names && Above(demands[name], level);
    FairSpends(demands, names, capacity, level);
    WaterWithinLevel(demands, names, level);
  }

  lemma WaterWithinLevel(demands: Demands, names: seq<Stream>, level: real)
    requires forall n :: n in names ==> n in demands
    ensures Water(demands, names, level) <= |names| as real * level
  {
    var even := (n: Stream) => level;
    SumAtMost(names, TakenBy(demands, level), even);
    TailOf(names, even, 0, level);
    assert level * |names| as real == |names| as real * level;
  }

  /** Tasks of this cost left within the cap beside what is held; none left out of a cap costs nothing. */
  function Fits(cap: Quantity, held: real, cost: real): Option<int>
    requires cost >= 0.0
  {
    if cap.Infinite? || cost == 0.0 then None else Some(((cap.value - held) / cost).Floor)
  }

  function Fewer(a: Option<int>, b: Option<int>): Option<int> {
    if a.None? then b else if b.None? then a else if a.value <= b.value then a else b
  }

  /** The tasks a session may still start: the least its task, CPU and memory caps leave, not under 0; `None`
      uncapped. */
  function SessionRoom(tasks: Option<int>, cpus: Quantity, cpu: real, heldCpus: real, mem: Quantity, gb: real,
                       heldGb: real)
    : (room: Option<nat>)
    requires cpu >= 0.0 && gb >= 0.0
  {
    var least := Fewer(tasks, Fewer(Fits(cpus, heldCpus, cpu), Fits(mem, heldGb, gb)));
    if least.None? then None else Some(if least.value < 0 then 0 else least.value)
  }

  /** `n` more tasks keep within the cap. */
  predicate Within(cap: Quantity, held: real, cost: real, n: nat) {
    cap.Infinite? || cost == 0.0 || held + n as real * cost <= cap.value
  }

  lemma FitsExactly(cap: Quantity, held: real, cost: real, n: nat)
    requires cost >= 0.0
    ensures Within(cap, held, cost, n) <==> Fits(cap, held, cost).None? || n <= Fits(cap, held, cost).value
  {
    if cap.Finite? && cost > 0.0 {
      var ratio := (cap.value - held) / cost;
      assert ratio * cost == cap.value - held;
      if n as real <= ratio {
        assert (ratio - n as real) * cost >= 0.0;
      } else {
        assert (n as real - ratio) * cost > 0.0;
      }
    }
  }

  /** THE ROOM IS EXACT: a session may start `n` more tasks just when every cap still holds with them. */
  lemma RoomIsExact(tasks: Option<int>, cpus: Quantity, cpu: real, heldCpus: real, mem: Quantity, gb: real,
                    heldGb: real, n: nat)
    requires cpu >= 0.0 && gb >= 0.0 && n > 0
    ensures var room := SessionRoom(tasks, cpus, cpu, heldCpus, mem, gb, heldGb);
            (room.None? || n <= room.value)
            <==> (tasks.None? || n <= tasks.value) && Within(cpus, heldCpus, cpu, n) && Within(mem, heldGb, gb, n)
  {
    hide Fits, Within;
    FitsExactly(cpus, heldCpus, cpu, n);
    FitsExactly(mem, heldGb, gb, n);
  }
}
