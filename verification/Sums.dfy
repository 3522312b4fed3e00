/** Sums of real amounts over sequences, taken class by class. */
module Sums {

  function Sum<T>(xs: seq<T>, g: T -> real): real {
    if xs == [] then 0.0 else Sum(xs[..|xs| - 1], g) + g(xs[|xs| - 1])
  }

  function Itself(): real -> real {
    x => x
  }

  /** The part of the sum in class `c`. */
  function SumIn<T, C(==)>(xs: seq<T>, cls: T -> C, c: C, g: T -> real): real {
    if xs == [] then 0.0
    else
      var x := xs[|xs| - 1];
      SumIn(xs[..|xs| - 1], cls, c, g) + if cls(x) == c then g(x) else 0.0
  }

  function SumOver<T, C(==)>(classes: seq<C>, xs: seq<T>, cls: T -> C, g: T -> real): real {
    if classes == [] then 0.0
    else SumOver(classes[..|classes| - 1], xs, cls, g) + SumIn(xs, cls, classes[|classes| - 1], g)
  }

  predicate Distinct<C(==)>(classes: seq<C>) {
    forall i, j :: 0 <= i < j < |classes| ==> classes[i] != classes[j]
  }

  lemma {:induction false} OneMore<T, C>(classes: seq<C>, xs: seq<T>, cls: T -> C, g: T -> real)
    requires xs != [] && Distinct(classes)
    ensures var x := xs[|xs| - 1];
            SumOver(classes, xs, cls, g) ==
            SumOver(classes, xs[..|xs| - 1], cls, g) + if cls(x) in classes then g(x) else 0.0
  {
    if classes != [] {
      var front, c := classes[..|classes| - 1], classes[|classes| - 1];
      assert classes == front + [c];
      OneMore(front, xs, cls, g);
    }
  }

  /** Summing class by class sums everything, when every element's class is listed once. */
  lemma {:induction false} DoubleCounting<T, C>(classes: seq<C>, xs: seq<T>, cls: T -> C, g: T -> real)
    requires Distinct(classes) && forall x :: x in xs ==> cls(x) in classes
    ensures SumOver(classes, xs, cls, g) == Sum(xs, g)
  {
    if xs == [] {
      EmptyClasses(classes, xs, cls, g);
    } else {
      assert xs[|xs| - 1] in xs;
      OneMore(classes, xs, cls, g);
      DoubleCounting(classes, xs[..|xs| - 1], cls, g);
    }
  }

  lemma {:induction false} EmptyClasses<T, C>(classes: seq<C>, xs: seq<T>, cls: T -> C, g: T -> real)
    requires xs == []
    ensures SumOver(classes, xs, cls, g) == 0.0
  {
    if classes != [] {
      EmptyClasses(classes[..|classes| - 1], xs, cls, g);
    }
  }

  lemma {:induction false} SumAtMost<T>(xs: seq<T>, g: T -> real, h: T -> real)
    requires forall x :: x in xs ==> g(x) <= h(x)
    ensures Sum(xs, g) <= Sum(xs, h)
  {
    if xs != [] {
      assert xs[|xs| - 1] in xs;
      SumAtMost(xs[..|xs| - 1], g, h);
    }
  }

  /** Taking one element out of a sequence. */
  lemma {:induction false} SumWithout<T>(xs: seq<T>, k: nat, g: T -> real)
    requires k < |xs|
    ensures Sum(xs, g) == Sum(xs[..k] + xs[k + 1..], g) + g(xs[k])
  {
    var last := |xs| - 1;
    var rest := xs[..k] + xs[k + 1..];
    if k == last {
      assert rest == xs[..last];
    } else {
      SumWithout(xs[..last], k, g);
      assert rest[..|rest| - 1] == xs[..last][..k] + xs[..last][k + 1..];
      assert rest[|rest| - 1] == xs[last];
    }
  }

  /** The order of the elements does not matter. */
  lemma {:induction false} SumPermuted<T>(xs: seq<T>, ys: seq<T>, g: T -> real)
    requires multiset(xs) == multiset(ys)
    ensures Sum(xs, g) == Sum(ys, g)
  {
    if xs == [] {
      assert |multiset(ys)| == |ys| == 0;
    } else {
      var x := xs[|xs| - 1];
      assert x in multiset(ys);
      var k :| 0 <= k < |ys| && ys[k] == x;
      var rest := ys[..k] + ys[k + 1..];
      SumWithout(ys, k, g);
      TakenOut(xs, ys, k);
      SumPermuted(xs[..|xs| - 1], rest, g);
    }
  }

  lemma TakenOut<T>(xs: seq<T>, ys: seq<T>, k: nat)
    requires multiset(xs) == multiset(ys) && xs != []
    requires k < |ys| && ys[k] == xs[|xs| - 1]
    ensures multiset(xs[..|xs| - 1]) == multiset(ys[..k] + ys[k + 1..])
  {
    Removed(ys, k);
    Removed(xs, |xs| - 1);
    assert xs[..|xs| - 1] + xs[|xs|..] == xs[..|xs| - 1];
    Cancelled(multiset(xs[..|xs| - 1]), multiset(ys[..k] + ys[k + 1..]), ys[k]);
  }

  lemma Removed<T>(ys: seq<T>, k: nat)
    requires k < |ys|
    ensures multiset(ys) == multiset(ys[..k] + ys[k + 1..]) + multiset{ys[k]}
  {
    assert ys == ys[..k] + ([ys[k]] + ys[k + 1..]);
  }

  lemma Cancelled<T>(a: multiset<T>, b: multiset<T>, x: T)
    requires a + multiset{x} == b + multiset{x}
    ensures a == b
  {
    assert (a + multiset{x}) - multiset{x} == a && (b + multiset{x}) - multiset{x} == b;
  }

  lemma {:induction false} SumConcat<T>(xs: seq<T>, ys: seq<T>, g: T -> real)
    ensures Sum(xs + ys, g) == Sum(xs, g) + Sum(ys, g)
  {
    if ys == [] {
      assert xs + ys == xs;
    } else {
      assert (xs + ys)[..|xs + ys| - 1] == xs + ys[..|ys| - 1];
      SumConcat(xs, ys[..|ys| - 1], g);
    }
  }
}
