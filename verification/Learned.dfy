/** The one measured table of a repository, into which every run's rounds fold what they changed, concurrently. */
module Learned {
  import opened Options

  /** Per-test facts of one kind, by name. */
  type Facts = map<string, real>

  /** The table: every kind of fact it holds. */
  type Table = map<string, Facts>

  function Entry(facts: Facts, name: string): Option<real> {
    if name in facts then Some(facts[name]) else None
  }

  function KindOf(table: Table, kind: string): Facts {
    if kind in table then table[kind] else map[]
  }

  /** What a round set, changed or dropped between the facts it planned from and those it left. */
  predicate Touched(before: Facts, after: Facts, name: string) {
    Entry(before, name) != Entry(after, name)
  }

  /** One kind folded: what the round dropped goes, what it set or changed is written, the rest stays the table's. */
  function FoldKind(held: Facts, before: Facts, after: Facts): Facts {
    (map n | n in held && (n in after || n !in before) :: held[n])
    + (map n | n in after && Entry(before, n) != Some(after[n]) :: after[n])
  }

  /** `table` with the kinds of `kinds` folded. */
  function Folded(table: Table, before: Table, after: Table, kinds: seq<string>): Table {
    if kinds == [] then table
    else
      var kind := kinds[|kinds| - 1];
      Folded(table, before, after, kinds[..|kinds| - 1])
        [kind := FoldKind(KindOf(table, kind), KindOf(before, kind), KindOf(after, kind))]
  }

  /** A round's delta folded into the table, kind by kind; kinds a round does not measure stay. */
  method LearnRound(table: Table, before: Table, after: Table, kinds: seq<string>) returns (learned: Table)
    ensures learned == Folded(table, before, after, kinds)
  {
    learned := table;
    for i := 0 to |kinds|
      invariant learned == Folded(table, before, after, kinds[..i])
    {
      assert kinds[..i + 1][..i] == kinds[..i];
      var kind := kinds[i];
      learned := learned[kind := FoldKind(KindOf(table, kind), KindOf(before, kind), KindOf(after, kind))];
    }
    assert kinds[..|kinds|] == kinds;
  }

  lemma {:induction false} KindsFold(table: Table, before: Table, after: Table, kinds: seq<string>, kind: string)
    ensures KindOf(Folded(table, before, after, kinds), kind) ==
            if kind in kinds then FoldKind(KindOf(table, kind), KindOf(before, kind), KindOf(after, kind))
            else KindOf(table, kind)
  {
    if kinds != [] {
      hide FoldKind;
      var front, last := kinds[..|kinds| - 1], kinds[|kinds| - 1];
      assert kinds == front + [last];
      KindsFold(table, before, after, front, kind);
    }
  }

  /** A DELTA, NAME BY NAME: the round's outcome where it touched a name, the table's own entry everywhere else. */
  lemma FoldsTheDelta(table: Table, before: Table, after: Table, kinds: seq<string>, kind: string, name: string)
    requires kind in kinds
    ensures var facts := KindOf(Folded(table, before, after, kinds), kind);
            Entry(facts, name) ==
            if Touched(KindOf(before, kind), KindOf(after, kind), name) then Entry(KindOf(after, kind), name)
            else Entry(KindOf(table, kind), name)
  {
    KindsFold(table, before, after, kinds, kind);
  }

  lemma SameEntries(one: Facts, other: Facts)
    requires forall n :: Entry(one, n) == Entry(other, n)
    ensures one == other
  {
    forall n
      ensures n in one <==> n in other
      ensures n in one ==> one[n] == other[n]
    {
      assert Entry(one, n) == Entry(other, n);
    }
  }

  /** Folded into the table it started from, a round leaves exactly its own view. */
  lemma FoldsIntoItsStart(before: Table, after: Table, kinds: seq<string>, kind: string)
    requires kind in kinds
    ensures KindOf(Folded(before, before, after, kinds), kind) == KindOf(after, kind)
  {
    forall n
      ensures Entry(KindOf(Folded(before, before, after, kinds), kind), n) == Entry(KindOf(after, kind), n)
    {
      FoldsTheDelta(before, before, after, kinds, kind, n);
    }
    SameEntries(KindOf(Folded(before, before, after, kinds), kind), KindOf(after, kind));
  }

  lemma {:induction false} FoldedKinds(table: Table, before: Table, after: Table, kinds: seq<string>)
    ensures Folded(table, before, after, kinds).Keys == table.Keys + set k | k in kinds
  {
    if kinds != [] {
      FoldedKinds(table, before, after, kinds[..|kinds| - 1]);
      assert kinds == kinds[..|kinds| - 1] + [kinds[|kinds| - 1]];
    }
  }

  lemma SameTables(one: Table, other: Table)
    requires one.Keys == other.Keys && forall kind :: KindOf(one, kind) == KindOf(other, kind)
    ensures one == other
  {
    forall kind | kind in one
      ensures one[kind] == other[kind]
    {
      assert KindOf(one, kind) == KindOf(other, kind);
    }
  }

  /** Folding a round twice is folding it once. */
  lemma FoldsOnce(table: Table, before: Table, after: Table, kinds: seq<string>)
    ensures Folded(Folded(table, before, after, kinds), before, after, kinds) == Folded(table, before, after, kinds)
  {
    hide Folded;
    var once := Folded(table, before, after, kinds);
    var twice := Folded(once, before, after, kinds);
    forall kind
      ensures KindOf(twice, kind) == KindOf(once, kind)
    {
      KindsFold(once, before, after, kinds, kind);
      if kind in kinds {
        forall n
          ensures Entry(KindOf(twice, kind), n) == Entry(KindOf(once, kind), n)
        {
          FoldsTheDelta(table, before, after, kinds, kind, n);
          FoldsTheDelta(once, before, after, kinds, kind, n);
        }
        SameEntries(KindOf(twice, kind), KindOf(once, kind));
      }
    }
    FoldedKinds(table, before, after, kinds);
    FoldedKinds(once, before, after, kinds);
    SameTables(twice, once);
  }

  /** Two rounds write the same to every name both touch. */
  ghost predicate Agree(before: Facts, after: Facts, before': Facts, after': Facts) {
    forall n :: n in before || n in after ==>
                  Touched(before, after, n) && Touched(before', after', n) ==> Entry(after, n) == Entry(after', n)
  }

  /** CONCURRENT ROUNDS COMMUTE EXACTLY WHERE THEY AGREE: rounds touching disjoint names fold in either order to one
      table, and rounds that leave a name differently do not. */
  lemma RoundsCommuteExactly(table: Table, before: Table, after: Table, before': Table, after': Table,
                             kinds: seq<string>, kind: string)
    requires kind in kinds
    ensures KindOf(Folded(Folded(table, before, after, kinds), before', after', kinds), kind) ==
            KindOf(Folded(Folded(table, before', after', kinds), before, after, kinds), kind)
            <==> Agree(KindOf(before, kind), KindOf(after, kind), KindOf(before', kind), KindOf(after', kind))
  {
    hide Folded, Touched;
    var one := Folded(Folded(table, before, after, kinds), before', after', kinds);
    var other := Folded(Folded(table, before', after', kinds), before, after, kinds);
    var agrees := Agree(KindOf(before, kind), KindOf(after, kind), KindOf(before', kind), KindOf(after', kind));
    forall n
      ensures Entry(KindOf(one, kind), n) == Entry(KindOf(other, kind), n) <==>
              !(Touched(KindOf(before, kind), KindOf(after, kind), n)
                && Touched(KindOf(before', kind), KindOf(after', kind), n))
              || Entry(KindOf(after, kind), n) == Entry(KindOf(after', kind), n)
    {
      FoldsTheDelta(table, before, after, kinds, kind, n);
      FoldsTheDelta(table, before', after', kinds, kind, n);
      FoldsTheDelta(Folded(table, before, after, kinds), before', after', kinds, kind, n);
      FoldsTheDelta(Folded(table, before', after', kinds), before, after, kinds, kind, n);
    }
    if agrees {
      forall n
        ensures Entry(KindOf(one, kind), n) == Entry(KindOf(other, kind), n)
      {
        OnlyTouched(KindOf(before, kind), KindOf(after, kind), n);
      }
      SameEntries(KindOf(one, kind), KindOf(other, kind));
    }
  }

  lemma OnlyTouched(before: Facts, after: Facts, name: string)
    ensures Touched(before, after, name) ==> name in before || name in after
  {
  }
}
