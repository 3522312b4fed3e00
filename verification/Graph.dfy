/** A graph of units drawn by what they read, the order that runs each after what it reads, and what depends on one. */
module Graph {
  import opened Options

  /** Unit names, numbered in their alphabetical order. */
  type Name = nat

  /** A file input: a file's content, or output `output` of the graph's unit `unit`. */
  datatype Source = File(content: string) | Read(unit: Name, output: string)

  /** A unit: what it computes (engine, version, entry, parameters), its file inputs, the outputs it declares. */
  datatype Unit = Unit(what: string, inputs: map<string, Source>, outputs: set<string>, localOnly: bool)

  type Units = map<Name, Unit>

  function Upstream(unit: Unit): set<Name> {
    set k | k in unit.inputs && unit.inputs[k].Read? :: unit.inputs[k].unit
  }

  /** Every edge names a declared output of a unit of the graph. */
  predicate EdgesDeclared(units: Units) {
    forall n, k :: n in units && k in units[n].inputs && units[n].inputs[k].Read? ==>
                     var edge := units[n].inputs[k]; edge.unit in units && edge.output in units[edge.unit].outputs
  }

  // ----- name order

  predicate IsLeast(names: set<Name>, m: Name) {
    m in names && forall k :: k in names ==> m <= k
  }

  lemma {:induction false} LeastExists(names: set<Name>) returns (m: Name)
    requires names != {}
    ensures IsLeast(names, m)
  {
    var n :| n in names;
    var rest := names - {n};
    assert forall k :: k in names ==> k in rest || k == n;
    m := n;
    if rest != {} {
      var least := LeastExists(rest);
      if least < n { m := least; }
    }
  }

  predicate Ascending(names: seq<Name>) {
    forall i, j :: 0 <= i < j < |names| ==> names[i] < names[j]
  }

  function Sorted(names: set<Name>): (r: seq<Name>)
    ensures Ascending(r) && forall n :: n in r <==> n in names
  {
    if names == {} then []
    else
      assert exists m :: IsLeast(names, m) by { var m := LeastExists(names); }
      var m :| IsLeast(names, m);
      var rest := Sorted(names - {m});
      assert forall i :: 0 <= i < |rest| ==> rest[i] in rest && m < rest[i];
      [m] + rest
  }

  // ----- the order

  function Members(names: seq<Name>): set<Name> {
    set n | n in names
  }

  function Ready(units: Units, left: set<Name>, done: set<Name>): set<Name>
    requires left <= units.Keys
  {
    set n | n in left && Upstream(units[n]) <= done
  }

  /** Layer by layer: every unit whose upstream is listed, in name order; `None` where no unit is ready. */
  function OrderFrom(units: Units, done: seq<Name>, left: set<Name>): Option<seq<Name>>
    requires left <= units.Keys
    decreases |left|
  {
    if left == {} then Some(done)
    else
      var ready := Ready(units, left, Members(done));
      if ready == {} then None else ShrinksBy(left, ready); OrderFrom(units, done + Sorted(ready), left - ready)
  }

  lemma ShrinksBy(left: set<Name>, ready: set<Name>)
    requires ready <= left && ready != {}
    ensures |left - ready| < |left|
  {
    assert |left| == |left - ready| + |left * ready|;
    assert left * ready == ready;
  }

  function OrderOf(units: Units): Option<seq<Name>> {
    OrderFrom(units, [], units.Keys)
  }

  method Order(units: Units) returns (order: Option<seq<Name>>)
    ensures order == OrderOf(units)
  {
    var done: seq<Name>, left := [], units.Keys;
    while left != {}
      invariant left <= units.Keys && OrderOf(units) == OrderFrom(units, done, left)
      decreases |left|
    {
      var ready := Ready(units, left, Members(done));
      if ready == {} { return None; }
      ShrinksBy(left, ready);
      done, left := done + Sorted(ready), left - ready;
    }
    return Some(done);
  }

  predicate Distinct(names: seq<Name>) {
    forall i, j :: 0 <= i < j < |names| ==> names[i] != names[j]
  }

  /** Every unit among `names` comes after all it reads. */
  predicate AfterUpstream(units: Units, names: seq<Name>) {
    forall i :: 0 <= i < |names| ==> names[i] in units && Upstream(units[names[i]]) <= Members(names[..i])
  }

  /** Every unit of the graph once, each after all it reads. */
  predicate Lists(units: Units, names: seq<Name>) {
    Distinct(names) && Members(names) == units.Keys && AfterUpstream(units, names)
  }

  lemma LayerIsAfter(units: Units, done: seq<Name>, layer: seq<Name>)
    requires AfterUpstream(units, done)
    requires forall k :: 0 <= k < |layer| ==> layer[k] in units && Upstream(units[layer[k]]) <= Members(done)
    ensures AfterUpstream(units, done + layer)
  {
    hide Upstream;
    forall i | 0 <= i < |done + layer|
      ensures (done + layer)[i] in units && Upstream(units[(done + layer)[i]]) <= Members((done + layer)[..i])
    {
      if i < |done| {
        assert (done + layer)[..i] == done[..i];
      } else {
        assert (done + layer)[i] == layer[i - |done|];
        StartHolds(done, layer, i);
      }
    }
  }

  lemma StartHolds(done: seq<Name>, layer: seq<Name>, i: nat)
    requires |done| <= i <= |done + layer|
    ensures Members(done) <= Members((done + layer)[..i])
  {
    forall n | n in done
      ensures n in (done + layer)[..i]
    {
      var k :| 0 <= k < |done| && done[k] == n;
      assert (done + layer)[..i][k] == n;
    }
  }

  lemma LayerIsDistinct(done: seq<Name>, layer: seq<Name>)
    requires Distinct(done) && Ascending(layer) && Members(done) !! Members(layer)
    ensures Distinct(done + layer)
  {
    forall i, j | 0 <= i < |done| && 0 <= j < |layer|
      ensures done[i] != layer[j]
    {
      assert done[i] in Members(done) && layer[j] in Members(layer);
    }
  }

  lemma LayerKeepsOrder(units: Units, done: seq<Name>, left: set<Name>)
    requires left <= units.Keys && Distinct(done) && AfterUpstream(units, done) && Members(done) !! left
    ensures var layer := Sorted(Ready(units, left, Members(done)));
            && Distinct(done + layer) && AfterUpstream(units, done + layer)
            && Members(done + layer) == Members(done) + Ready(units, left, Members(done))
  {
    hide AfterUpstream, Distinct, Upstream, Sorted;
    var ready := Ready(units, left, Members(done));
    var layer := Sorted(ready);
    forall k | 0 <= k < |layer|
      ensures layer[k] in units && Upstream(units[layer[k]]) <= Members(done)
    {
      assert layer[k] in layer;
    }
    LayerIsAfter(units, done, layer);
    assert Members(layer) == ready;
    LayerIsDistinct(done, layer);
    MembersAdd(done, layer, ready);
  }

  lemma {:induction false} OrderFromLists(units: Units, done: seq<Name>, left: set<Name>)
    requires left <= units.Keys && Distinct(done) && AfterUpstream(units, done)
    requires Members(done) !! left && Members(done) + left == units.Keys
    ensures var order := OrderFrom(units, done, left); order.Some? ==> Lists(units, order.value)
    decreases |left|
  {
    hide Distinct, AfterUpstream, Members, Sorted, Upstream, Ready;
    var ready := Ready(units, left, Members(done));
    if left != {} && ready != {} {
      LayerKeepsOrder(units, done, left);
      ReadyIsLeft(units, left, Members(done));
      LayerMoves(Members(done), ready, left, units.Keys);
      ShrinksBy(left, ready);
      OrderFromLists(units, done + Sorted(ready), left - ready);
    }
  }

  lemma ReadyIsLeft(units: Units, left: set<Name>, done: set<Name>)
    requires left <= units.Keys
    ensures Ready(units, left, done) <= left
  {
  }

  lemma LayerMoves(done: set<Name>, ready: set<Name>, left: set<Name>, all: set<Name>)
    requires done !! left && done + left == all && ready <= left
    ensures (done + ready) !! (left - ready) && (done + ready) + (left - ready) == all && left - ready <= all
  {
  }

  /** An order lists every unit once, each after all it reads. */
  lemma OrderLists(units: Units)
    ensures OrderOf(units).Some? ==> Lists(units, OrderOf(units).value)
  {
    OrderFromLists(units, [], units.Keys);
  }

  // ----- cycles

  /** Each name reads the next. */
  predicate IsPath(units: Units, path: seq<Name>) {
    && (forall i :: 0 <= i < |path| ==> path[i] in units)
    && (forall i :: 0 < i < |path| ==> path[i] in Upstream(units[path[i - 1]]))
  }

  predicate IsCycle(units: Units, path: seq<Name>) {
    IsPath(units, path) && |path| > 1 && path[0] == path[|path| - 1]
  }

  ghost predicate HasCycle(units: Units) {
    exists path :: IsCycle(units, path)
  }

  /** Following a path goes back in the order. */
  lemma {:induction false} PathGoesBack(units: Units, order: seq<Name>, path: seq<Name>, i: nat, j: nat)
    requires Lists(units, order) && IsPath(units, path) && |path| > 1
    requires i < |order| && order[i] == path[0] && j < |order| && order[j] == path[|path| - 1]
    ensures j < i
    decreases |path|
  {
    var last := |path| - 1;
    assert path[last - 1] in Members(order);
    var k :| 0 <= k < |order| && order[k] == path[last - 1];
    assert path[last] in Members(order[..k]);
    var l :| 0 <= l < k && order[l] == path[last];
    assert l == j;
    if last > 1 {
      PathGoesBack(units, order, path[..last], i, k);
    }
  }

  lemma OrderedIsAcyclic(units: Units, order: seq<Name>)
    requires Lists(units, order)
    ensures !HasCycle(units)
  {
    forall path
      ensures !IsCycle(units, path)
    {
      if IsCycle(units, path) {
        assert path[0] in Members(order);
        var i :| 0 <= i < |order| && order[i] == path[0];
        PathGoesBack(units, order, path, i, i);
      }
    }
  }

  /** Every unit of `left` reads one of `left`. */
  predicate Stuck(units: Units, left: set<Name>) {
    left <= units.Keys && forall n :: n in left ==> Upstream(units[n]) * left != {}
  }

  lemma NextAlong(units: Units, left: set<Name>, n: Name) returns (next: Name)
    requires Stuck(units, left) && n in left
    ensures next in left && next in Upstream(units[n])
  {
    next :| next in Upstream(units[n]) * left;
  }

  lemma PathExtends(units: Units, path: seq<Name>, next: Name)
    requires IsPath(units, path) && path != [] && next in units && next in Upstream(units[path[|path| - 1]])
    ensures IsPath(units, path + [next])
  {
  }

  /** Where no unit is ready there is a walk among them of any length. */
  lemma {:induction false} StuckWalk(units: Units, left: set<Name>, start: Name, steps: nat) returns (path: seq<Name>)
    requires Stuck(units, left) && start in left
    ensures IsPath(units, path) && |path| == steps + 1 && forall i :: 0 <= i < |path| ==> path[i] in left
  {
    if steps == 0 {
      path := [start];
    } else {
      hide IsPath, Upstream;
      var before := StuckWalk(units, left, start, steps - 1);
      var next := NextAlong(units, left, before[steps - 1]);
      PathExtends(units, before, next);
      path := before + [next];
    }
  }

  lemma {:induction false} DistinctCount(names: seq<Name>)
    requires Distinct(names)
    ensures |Members(names)| == |names|
  {
    if names != [] {
      var front, last := names[..|names| - 1], names[|names| - 1];
      DistinctCount(front);
      assert Members(names) == Members(front) + {last};
    }
  }

  lemma SubsetCount(a: set<Name>, b: set<Name>)
    requires a <= b
    ensures |a| <= |b|
  {
    assert b == a + (b - a);
    assert |b| == |a| + |b - a|;
  }

  /** More names than there are to choose from: one repeats. */
  lemma Repeats(path: seq<Name>, left: set<Name>) returns (i: nat, j: nat)
    requires |path| > |left| && forall i :: 0 <= i < |path| ==> path[i] in left
    ensures i < j < |path| && path[i] == path[j]
  {
    if Distinct(path) {
      DistinctCount(path);
      SubsetCount(Members(path), left);
    }
    i, j :| 0 <= i < j < |path| && path[i] == path[j];
  }

  lemma SliceIsCycle(units: Units, path: seq<Name>, i: nat, j: nat)
    requires IsPath(units, path) && i < j < |path| && path[i] == path[j]
    ensures IsCycle(units, path[i..j + 1])
  {
    hide Upstream;
    var slice := path[i..j + 1];
    forall k | 0 < k < |slice|
      ensures slice[k] in Upstream(units[slice[k - 1]])
    {
      assert slice[k] == path[i + k] && slice[k - 1] == path[i + k - 1];
    }
  }

  lemma StuckIsCyclic(units: Units, left: set<Name>)
    requires Stuck(units, left) && left != {}
    ensures HasCycle(units)
  {
    hide Stuck, IsPath, IsCycle;
    var start :| start in left;
    var path := StuckWalk(units, left, start, |left|);
    var i, j := Repeats(path, left);
    SliceIsCycle(units, path, i, j);
  }

  lemma {:induction false} OrderFromFails(units: Units, done: seq<Name>, left: set<Name>)
    requires EdgesDeclared(units) && left <= units.Keys && Members(done) + left == units.Keys
    ensures OrderFrom(units, done, left).None? ==> HasCycle(units)
    decreases |left|
  {
    hide HasCycle, Members;
    if left != {} {
      var ready := Ready(units, left, Members(done));
      if ready == {} {
        assert Stuck(units, left) by {
          forall n | n in left ensures Upstream(units[n]) * left != {} { NotReady(units, left, Members(done), n); }
        }
        StuckIsCyclic(units, left);
      } else {
        ShrinksBy(left, ready);
        MembersAdd(done, Sorted(ready), ready);
        OrderFromFails(units, done + Sorted(ready), left - ready);
      }
    }
  }

  lemma NotReady(units: Units, left: set<Name>, done: set<Name>, n: Name)
    requires EdgesDeclared(units) && n in left && left <= units.Keys && done + left == units.Keys
    requires Ready(units, left, done) == {}
    ensures Upstream(units[n]) * left != {}
  {
    assert n !in Ready(units, left, done);
    var u :| u in Upstream(units[n]) && u !in done;
    assert u in units;
    assert u in Upstream(units[n]) * left;
  }

  lemma MembersAdd(done: seq<Name>, layer: seq<Name>, ready: set<Name>)
    requires forall n :: n in layer <==> n in ready
    ensures Members(done + layer) == Members(done) + ready
  {
  }

  /** ORDER SUCCEEDS EXACTLY ON GRAPHS WITHOUT A CYCLE. */
  lemma OrderExactly(units: Units)
    requires EdgesDeclared(units)
    ensures OrderOf(units).Some? <==> !HasCycle(units)
  {
    hide HasCycle, Lists;
    OrderLists(units);
    if OrderOf(units).Some? {
      OrderedIsAcyclic(units, OrderOf(units).value);
    } else {
      OrderFromFails(units, [], units.Keys);
    }
  }

  /** A graph is refused before anything runs exactly when an edge names no declared output or there is a cycle. */
  method Construct(units: Units) returns (accepted: bool)
    ensures accepted <==> EdgesDeclared(units) && !HasCycle(units)
  {
    hide EdgesDeclared, HasCycle;
    if !EdgesDeclared(units) { return false; }
    OrderExactly(units);
    var order := Order(units);
    accepted := order.Some?;
  }

  // ----- dependants

  /** `m` reads `name`'s outputs, directly or through others. */
  ghost predicate Reaches(units: Units, m: Name, name: Name) {
    exists path :: Leads(units, path, m, name)
  }

  predicate Leads(units: Units, path: seq<Name>, m: Name, name: Name) {
    && |path| > 1 && path[0] == m && path[|path| - 1] == name
    && (forall i :: 0 <= i < |path| - 1 ==> path[i] in units && path[i + 1] in Upstream(units[path[i]]))
  }

  lemma ReadsReach(units: Units, m: Name, x: Name, name: Name)
    requires m in units && x in Upstream(units[m]) && (x == name || Reaches(units, x, name))
    ensures Reaches(units, m, name)
  {
    if x == name {
      assert Leads(units, [m, name], m, name);
    } else {
      var path :| Leads(units, path, x, name);
      assert Leads(units, [m] + path, m, name);
    }
  }

  lemma {:induction false} ClosedHoldsPath(units: Units, found: set<Name>, name: Name, path: seq<Name>, m: Name)
    requires Leads(units, path, m, name)
    requires forall n :: n in units && Upstream(units[n]) * (found + {name}) != {} ==> n in found
    ensures m in found
    decreases |path|
  {
    if |path| > 2 {
      assert Leads(units, path[1..], path[1], name);
      ClosedHoldsPath(units, found, name, path[1..], path[1]);
    }
    assert path[1] in Upstream(units[m]) * (found + {name});
  }

  function Readers(units: Units, those: set<Name>): set<Name> {
    set n | n in units && Upstream(units[n]) * those != {}
  }

  /** DEPENDANTS ARE THE TRANSITIVE CLOSURE of reading. */
  method Dependants(units: Units, name: Name) returns (found: set<Name>)
    ensures forall m :: m in found <==> Reaches(units, m, name)
  {
    hide Reaches, Readers, Upstream;
    found := {};
    var frontier := {name};
    NothingFound(units, name);
    while frontier != {}
      invariant found <= units.Keys && frontier <= found + {name}
      invariant forall m :: m in found ==> Reaches(units, m, name)
      invariant Readers(units, (found + {name}) - frontier) <= found
      decreases |units.Keys - found|, |frontier|
    {
      var next := Readers(units, frontier) - found;
      NextReaches(units, found, name, frontier);
      NextClosed(units, found, name, frontier, next);
      if next != {} { SmallerRest(units.Keys, found, next); } else { assert found + next == found; }
      frontier := next;
      found := found + frontier;
    }
    ClosureHolds(units, found, name);
  }

  lemma NothingFound(units: Units, name: Name)
    ensures Readers(units, ({} + {name}) - {name}) <= {}
  {
    assert ({} + {name}) - {name} == {};
  }

  lemma NextReaches(units: Units, found: set<Name>, name: Name, frontier: set<Name>)
    requires frontier <= found + {name} && forall m :: m in found ==> Reaches(units, m, name)
    ensures Readers(units, frontier) <= units.Keys
    ensures forall m :: m in Readers(units, frontier) ==> Reaches(units, m, name)
  {
    hide Reaches, Upstream;
    forall m | m in Readers(units, frontier)
      ensures Reaches(units, m, name)
    {
      var x :| x in Upstream(units[m]) * frontier;
      ReadsReach(units, m, x, name);
    }
  }

  lemma SmallerRest(all: set<Name>, found: set<Name>, next: set<Name>)
    requires next <= all && next !! found && next != {}
    ensures |all - (found + next)| < |all - found|
  {
    assert all - found == (all - (found + next)) + next;
    assert |all - found| == |all - (found + next)| + |next|;
  }

  lemma NextClosed(units: Units, found: set<Name>, name: Name, frontier: set<Name>, next: set<Name>)
    requires Readers(units, (found + {name}) - frontier) <= found && next == Readers(units, frontier) - found
    ensures Readers(units, (found + next + {name}) - next) <= found + next
  {
    forall n | n in Readers(units, (found + next + {name}) - next)
      ensures n in found + next
    {
      var x :| x in Upstream(units[n]) * ((found + next + {name}) - next);
      if x in frontier {
        assert x in Upstream(units[n]) * frontier;
        assert n in Readers(units, frontier);
      } else {
        assert x in Upstream(units[n]) * ((found + {name}) - frontier);
        assert n in Readers(units, (found + {name}) - frontier);
      }
    }
  }

  lemma ClosureHolds(units: Units, found: set<Name>, name: Name)
    requires Readers(units, (found + {name}) - {}) <= found
    ensures forall m :: Reaches(units, m, name) ==> m in found
  {
    assert (found + {name}) - {} == found + {name};
    forall m | Reaches(units, m, name)
      ensures m in found
    {
      var path :| Leads(units, path, m, name);
      forall n | n in units && Upstream(units[n]) * (found + {name}) != {}
        ensures n in found
      {
        assert n in Readers(units, found + {name});
      }
      ClosedHoldsPath(units, found, name, path, m);
    }
  }
}
