/** Elements taken class by class: each class in the elements' order, and all the classes together all the elements. */
module Classes {
  import opened Sums

  /** The elements of class `c`, in their order. */
  function InClass<T, C(==)>(xs: seq<T>, cls: T -> C, c: C): seq<T> {
    if xs == [] then []
    else InClass(xs[..|xs| - 1], cls, c) + if cls(xs[|xs| - 1]) == c then [xs[|xs| - 1]] else []
  }

  function AllClasses<T, C(==)>(xs: seq<T>, cls: T -> C, classes: seq<C>): multiset<T> {
    if classes == [] then multiset{}
    else AllClasses(xs, cls, classes[..|classes| - 1]) + multiset(InClass(xs, cls, classes[|classes| - 1]))
  }

  lemma {:induction false} InClassIsOfClass<T, C>(xs: seq<T>, cls: T -> C, c: C)
    ensures forall x :: x in InClass(xs, cls, c) ==> cls(x) == c && x in xs
  {
    if xs != [] {
      InClassIsOfClass(xs[..|xs| - 1], cls, c);
    }
  }

  lemma {:induction false} HasItsClass<T, C>(xs: seq<T>, cls: T -> C, x: T)
    requires x in xs
    ensures x in InClass(xs, cls, cls(x))
  {
    if x != xs[|xs| - 1] {
      HasItsClass(xs[..|xs| - 1], cls, x);
    }
  }

  lemma InClassGrows<T, C>(xs: seq<T>, last: T, cls: T -> C, c: C)
    ensures InClass(xs + [last], cls, c) == InClass(xs, cls, c) + if cls(last) == c then [last] else []
  {
    assert (xs + [last])[..|xs|] == xs;
  }

  /** The last of `xs`, where it belongs. */
  function LastIf<T>(xs: seq<T>, belongs: bool): multiset<T>
    requires xs != []
  {
    if belongs then multiset{xs[|xs| - 1]} else multiset{}
  }

  lemma OneClass<T, C>(xs: seq<T>, cls: T -> C, c: C)
    requires xs != []
    ensures multiset(InClass(xs, cls, c)) ==
            multiset(InClass(xs[..|xs| - 1], cls, c)) + LastIf(xs, cls(xs[|xs| - 1]) == c)
  {
  }

  lemma Regrouped<T>(a: multiset<T>, b: multiset<T>, x: multiset<T>, y: multiset<T>, z: multiset<T>)
    requires z == x + y
    ensures (a + x) + (b + y) == (a + b) + z
  {
  }

  lemma {:induction false} OneMoreElement<T, C>(xs: seq<T>, cls: T -> C, classes: seq<C>)
    requires xs != [] && Distinct(classes)
    ensures AllClasses(xs, cls, classes) ==
            AllClasses(xs[..|xs| - 1], cls, classes) + LastIf(xs, cls(xs[|xs| - 1]) in classes)
  {
    hide InClass;
    if classes != [] {
      var front, c := classes[..|classes| - 1], classes[|classes| - 1];
      var before, own := xs[..|xs| - 1], cls(xs[|xs| - 1]);
      assert classes == front + [c];
      OneMoreElement(xs, cls, front);
      OneClass(xs, cls, c);
      Regrouped(AllClasses(before, cls, front), multiset(InClass(before, cls, c)), LastIf(xs, own in front),
                LastIf(xs, own == c), LastIf(xs, own in classes));
    }
  }

  lemma {:induction false} NoElements<T, C>(xs: seq<T>, cls: T -> C, classes: seq<C>)
    requires xs == []
    ensures AllClasses(xs, cls, classes) == multiset{}
  {
    if classes != [] {
      NoElements(xs, cls, classes[..|classes| - 1]);
    }
  }

  /** Taken class by class, nothing is lost and nothing taken twice. */
  lemma {:induction false} ClassesKeepAll<T, C>(xs: seq<T>, cls: T -> C, classes: seq<C>)
    requires Distinct(classes) && forall x :: x in xs ==> cls(x) in classes
    ensures AllClasses(xs, cls, classes) == multiset(xs)
  {
    hide InClass;
    if xs == [] {
      NoElements(xs, cls, classes);
    } else {
      var front, last := xs[..|xs| - 1], xs[|xs| - 1];
      assert xs == front + [last] && last in xs;
      ClassesKeepAll(front, cls, classes);
      OneMoreElement(xs, cls, classes);
    }
  }
}
