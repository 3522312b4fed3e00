/** Resource vectors and the one admission rule: named non-negative amounts, a missing name reading zero. */
module Vectors {

  /** What a box meters: its cores, its memory (counted in bytes here) and each named seat. */
  datatype Name = Cpu | Mem | Seat(tool: string)

  /** An immutable vector; a zero amount is not kept, so equal amounts are equal vectors. */
  type Vector = v: map<Name, real> | forall n :: n in v ==> v[n] > 0.0

  function Amount(v: Vector, n: Name): real {
    if n in v then v[n] else 0.0
  }

  function Max(a: real, b: real): real {
    if a >= b then a else b
  }

  function Min(a: real, b: real): real {
    if a <= b then a else b
  }

  predicate NonNegative(amounts: map<Name, real>) {
    forall n :: n in amounts ==> amounts[n] >= 0.0
  }

  /** The vector of `amounts`: the constructor, which refuses a negative amount and drops a zero. */
  function Keep(amounts: map<Name, real>): (v: Vector)
    requires NonNegative(amounts)
    ensures forall n :: Amount(v, n) == if n in amounts then amounts[n] else 0.0
  {
    map n | n in amounts && amounts[n] > 0.0 :: amounts[n]
  }

  function Plus(a: Vector, b: Vector): (v: Vector)
    ensures forall n :: Amount(v, n) == Amount(a, n) + Amount(b, n)
  {
    map n | n in a.Keys + b.Keys :: Amount(a, n) + Amount(b, n)
  }

  /** What remains of each name, at least nothing. */
  function Minus(a: Vector, b: Vector): (v: Vector)
    ensures forall n :: Amount(v, n) == Max(0.0, Amount(a, n) - Amount(b, n))
  {
    var left := map n | n in a :: Max(0.0, a[n] - Amount(b, n));
    assert forall n :: Amount(b, n) >= 0.0;
    Keep(left)
  }

  /** The sum of `vs`; nothing sums to the empty vector. */
  function Total(vs: seq<Vector>): Vector {
    if vs == [] then map[] else Plus(Total(vs[..|vs| - 1]), vs[|vs| - 1])
  }

  /** Every name `want` asks fits within `free`. */
  predicate Within(want: Vector, free: Vector) {
    forall n :: n in want ==> want[n] <= Amount(free, n)
  }

  /** THE RULE: a demand fits the supply less what runs. */
  predicate Admits(supply: Vector, demand: Vector, running: seq<Vector>) {
    Within(demand, Minus(supply, Total(running)))
  }
}
