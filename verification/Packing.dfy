/** What a run submits first: the collected ids grouped by file, whole files packed into one-process items. */
module Packing {
  import opened Classes
  import opened PytestItem
  import opened Measured
  import opened Records
  import opened Shards

  /** By how many classes an item may pass the class its files have alone. */
  const ACCUMULATED_CLASSES := 1

  // ----- one item per file

  function PerFile(ids: seq<Id>, files: seq<string>): seq<Group> {
    seq(|files|, k requires 0 <= k < |files| => IdsOf(ids, files[k]))
  }

  method GroupItems(ids: seq<Id>) returns (items: seq<Group>)
    ensures items == PerFile(ids, Files(ids))
  {
    hide FileOf, IdsOf, Files;
    var order: seq<string>, groups: map<string, Group> := [], map[];
    NothingGrouped();
    for i := 0 to |ids|
      invariant order == Files(ids[..i])
      invariant GroupedBy(ids[..i], order, groups)
    {
      var file := FileOf(ids[i]);
      GroupStep(ids, i);
      if file !in groups {
        NotOfFile(ids[..i], file);
        order, groups := order + [file], groups[file := []];
      }
      groups := groups[file := groups[file] + [ids[i]]];
    }
    assert ids[..|ids|] == ids;
    items := seq(|order|, k requires 0 <= k < |order| => groups[order[k]]);
  }

  ghost predicate GroupedBy(ids: seq<Id>, order: seq<string>, groups: map<string, Group>) {
    && (forall f :: f in groups <==> f in order)
    && (forall f :: f in order ==> groups[f] == IdsOf(ids, f))
  }

  lemma NothingGrouped()
    ensures Files([]) == []
  {
  }

  lemma GroupStep(ids: seq<Id>, i: nat)
    requires i < |ids|
    ensures var file := FileOf(ids[i]);
            && Files(ids[..i + 1]) == (if file in Files(ids[..i]) then Files(ids[..i]) else Files(ids[..i]) + [file])
            && IdsOf(ids[..i + 1], file) == IdsOf(ids[..i], file) + [ids[i]]
            && forall f :: f != file ==> IdsOf(ids[..i + 1], f) == IdsOf(ids[..i], f)
  {
    hide FileOf;
    assert ids[..i + 1][..i] == ids[..i];
  }

  lemma {:induction false} NotOfFile(ids: seq<Id>, file: string)
    requires file !in Files(ids)
    ensures IdsOf(ids, file) == []
  {
    hide FileOf;
    if ids != [] {
      NotOfFile(ids[..|ids| - 1], file);
    }
  }

  /** The items of `files` are those files' classes of ids. */
  lemma {:induction false} PerFileIsByClass(ids: seq<Id>, files: seq<string>)
    ensures IdsIn(PerFile(ids, files)) == AllClasses(ids, FileOf, files)
  {
    hide FileOf, IdsOf, InClass;
    if files != [] {
      var front, f := files[..|files| - 1], files[|files| - 1];
      PerFileIsByClass(ids, front);
      IsClass(ids, f);
      assert PerFile(ids, files) == PerFile(ids, front) + [IdsOf(ids, f)];
      IdsInGrows(PerFile(ids, front), IdsOf(ids, f));
    }
  }

  lemma {:induction false} IsClass(ids: seq<Id>, file: string)
    ensures IdsOf(ids, file) == InClass(ids, FileOf, file)
  {
    hide FileOf;
    if ids != [] {
      IsClass(ids[..|ids| - 1], file);
    }
  }

  /** Every collected id is in exactly one file's item. */
  lemma PerFileKeepsAll(ids: seq<Id>)
    ensures IdsIn(PerFile(ids, Files(ids))) == multiset(ids)
  {
    hide FileOf, IdsIn, PerFile, AllClasses, Files;
    PerFileIsByClass(ids, Files(ids));
    ClassesKeepAll(ids, FileOf, Files(ids));
  }

  lemma {:induction false} OfFileIsSome(ids: seq<Id>, file: string)
    requires file in Files(ids)
    ensures IdsOf(ids, file) != []
  {
    hide FileOf;
    if file in Files(ids[..|ids| - 1]) {
      OfFileIsSome(ids[..|ids| - 1], file);
    }
  }

  lemma PerFileIsNonEmpty(ids: seq<Id>)
    ensures AllNonEmpty(PerFile(ids, Files(ids)))
  {
    forall k | 0 <= k < |Files(ids)|
      ensures PerFile(ids, Files(ids))[k] != []
    {
      OfFileIsSome(ids, Files(ids)[k]);
    }
  }

  // ----- files in the order of their memory class

  predicate LightestBandFirst(files: seq<Group>, band: Group -> nat) {
    forall a, b :: 0 <= a < b < |files| ==> band(files[a]) <= band(files[b])
  }

  /** A stable insertion: `file` goes behind every file of its class. */
  function Filed(file: Group, files: seq<Group>, band: Group -> nat): seq<Group> {
    if files == [] || band(files[|files| - 1]) <= band(file) then files + [file]
    else Filed(file, files[..|files| - 1], band) + [files[|files| - 1]]
  }

  /** The files sorted by class: stable, so collection order is kept within a class. */
  function Banded(files: seq<Group>, band: Group -> nat): seq<Group> {
    if files == [] then [] else Filed(files[|files| - 1], Banded(files[..|files| - 1], band), band)
  }

  lemma {:induction false} FiledSorts(file: Group, files: seq<Group>, band: Group -> nat, top: nat)
    requires LightestBandFirst(files, band) && forall k :: 0 <= k < |files| ==> band(files[k]) <= top
    ensures LightestBandFirst(Filed(file, files, band), band)
    ensures band(file) <= top ==> forall k :: 0 <= k < |Filed(file, files, band)| ==>
            band(Filed(file, files, band)[k]) <= top
  {
    if !(files == [] || band(files[|files| - 1]) <= band(file)) {
      FiledSorts(file, files[..|files| - 1], band, band(files[|files| - 1]));
    }
  }

  lemma {:induction false} FiledKeeps(file: Group, files: seq<Group>, band: Group -> nat)
    ensures multiset(Filed(file, files, band)) == multiset(files) + multiset{file}
  {
    if !(files == [] || band(files[|files| - 1]) <= band(file)) {
      assert files == files[..|files| - 1] + [files[|files| - 1]];
      FiledKeeps(file, files[..|files| - 1], band);
    }
  }

  lemma {:induction false} FiledKeepsIds(file: Group, files: seq<Group>, band: Group -> nat)
    ensures IdsIn(Filed(file, files, band)) == IdsIn(files) + multiset(file)
  {
    hide IdsIn;
    if files == [] || band(files[|files| - 1]) <= band(file) {
      IdsInGrows(files, file);
    } else {
      var front, last := files[..|files| - 1], files[|files| - 1];
      assert files == front + [last];
      FiledKeepsIds(file, front, band);
      IdsInGrows(front, last);
      IdsInGrows(Filed(file, front, band), last);
    }
  }

  lemma {:induction false} FiledIsStable(file: Group, files: seq<Group>, band: Group -> nat, key: nat)
    requires LightestBandFirst(files, band)
    ensures InClass(Filed(file, files, band), band, key) == InClass(files, band, key)
                                                              + if band(file) == key then [file] else []
  {
    hide InClass;
    if files == [] || band(files[|files| - 1]) <= band(file) {
      InClassGrows(files, file, band, key);
    } else {
      var front, last := files[..|files| - 1], files[|files| - 1];
      assert files == front + [last];
      FiledIsStable(file, front, band, key);
      InClassGrows(front, last, band, key);
      InClassGrows(Filed(file, front, band), last, band, key);
    }
  }

  /** Sorting by class loses no id, and keeps collection order within every class. */
  lemma {:induction false} BandedIsStable(files: seq<Group>, band: Group -> nat, key: nat)
    ensures LightestBandFirst(Banded(files, band), band)
    ensures InClass(Banded(files, band), band, key) == InClass(files, band, key)
    ensures IdsIn(Banded(files, band)) == IdsIn(files) && multiset(Banded(files, band)) == multiset(files)
  {
    if files != [] {
      hide IdsIn, InClass, Filed;
      var front, last := files[..|files| - 1], files[|files| - 1];
      assert files == front + [last];
      BandedIsStable(front, band, key);
      var sorted := Banded(front, band);
      FiledSorts(last, sorted, band, Top(sorted, band));
      FiledKeeps(last, sorted, band);
      FiledKeepsIds(last, sorted, band);
      FiledIsStable(last, sorted, band, key);
      IdsInGrows(front, last);
      InClassGrows(front, last, band, key);
    }
  }

  function Top(files: seq<Group>, band: Group -> nat): (top: nat)
    ensures forall k :: 0 <= k < |files| ==> band(files[k]) <= top
  {
    if files == [] then 0
    else
      var before := Top(files[..|files| - 1], band);
      if before >= band(files[|files| - 1]) then before else band(files[|files| - 1])
  }

  // ----- packing

  /** What joining files makes: one process over their ids in turn. */
  function Joined(files: seq<Group>, a: nat, b: nat): Group
    requires a <= b <= |files|
  {
    if a == b then [] else Joined(files, a, b - 1) + files[b - 1]
  }

  predicate MayJoin(item: Group, file: Group, band: Group -> nat, seconds: Group -> real, budget: real) {
    band(item + file) <= band(file) + ACCUMULATED_CLASSES && seconds(item + file) <= budget
  }

  /** One item over files `span.0` to `span.1`: one class, and each file after the first was let in. */
  predicate PackedItem(files: seq<Group>, band: Group -> nat, seconds: Group -> real, budget: real, span: Range,
                       item: Group) {
    && span.0 < span.1 <= |files|
    && item == Joined(files, span.0, span.1)
    && (forall k :: span.0 < k < span.1 ==>
          band(files[k]) == band(files[span.0]) && MayJoin(Joined(files, span.0, k), files[k], band, seconds, budget))
  }

  /** The item before file `k` could not take it: its class differs, or it may not join. */
  predicate ClosesAt(files: seq<Group>, band: Group -> nat, seconds: Group -> real, budget: real, k: nat, item: Group) {
    && 0 < k < |files|
    && (band(files[k]) != band(files[k - 1]) || !MayJoin(item, files[k], band, seconds, budget))
  }

  /** Whole files in whole consecutive spans, an item closed only where the next file's class or weight forbids it. */
  predicate Packed(files: seq<Group>, upto: nat, band: Group -> nat, seconds: Group -> real, budget: real,
                   spans: seq<Range>, items: seq<Group>)
  {
    && |spans| == |items| && Consecutive(spans, upto)
    && (forall n :: 0 <= n < |items| ==> PackedItem(files, band, seconds, budget, spans[n], items[n]))
    && (forall n :: 0 < n < |items| ==> ClosesAt(files, band, seconds, budget, spans[n].0, items[n - 1]))
  }

  /** Each file of a span after the first was let in: of the first one's class, the item then at most one class over it
      and within the budget. */
  predicate LetIn(files: seq<Group>, band: Group -> nat, seconds: Group -> real, budget: real, span: Range) {
    && span.0 < span.1 <= |files|
    && forall k :: span.0 < k < span.1 ==>
                     var item := Joined(files, span.0, k) + files[k];
                     && band(files[k]) == band(files[span.0])
                     && band(item) <= band(files[k]) + 1 && seconds(item) <= budget
  }

  /** The file behind an item may not join it: another class, more than one class over it, or past the budget. */
  predicate KeptOut(file: Group, before: Group, item: Group, band: Group -> nat, seconds: Group -> real, budget: real) {
    band(file) != band(before) || band(item + file) > band(file) + 1 || seconds(item + file) > budget
  }

  /** An item is a span of files let in one after another, and closes exactly where the next is kept out. */
  lemma ClosesExactly(files: seq<Group>, upto: nat, band: Group -> nat, seconds: Group -> real, budget: real,
                      spans: seq<Range>, items: seq<Group>, n: nat)
    requires Packed(files, upto, band, seconds, budget, spans, items) && n < |items|
    ensures LetIn(files, band, seconds, budget, spans[n]) && items[n] == Joined(files, spans[n].0, spans[n].1)
    ensures n + 1 < |items| ==>
              && spans[n].1 == spans[n + 1].0 && 0 < spans[n].1 < |files|
              && KeptOut(files[spans[n].1], files[spans[n].1 - 1], items[n], band, seconds, budget)
  {
    hide Joined, MayJoin, PackedItem, ClosesAt, LetIn, KeptOut;
    ItemIsLetIn(files, band, seconds, budget, spans[n], items[n]);
    if n + 1 < |items| {
      assert spans[n].1 == spans[n + 1].0;
      NextIsKeptOut(files, band, seconds, budget, spans[n + 1].0, items[n]);
    }
  }

  lemma ItemIsLetIn(files: seq<Group>, band: Group -> nat, seconds: Group -> real, budget: real, span: Range,
                    item: Group)
    requires PackedItem(files, band, seconds, budget, span, item)
    ensures LetIn(files, band, seconds, budget, span) && item == Joined(files, span.0, span.1)
  {
    hide Joined;
  }

  lemma NextIsKeptOut(files: seq<Group>, band: Group -> nat, seconds: Group -> real, budget: real, k: nat, item: Group)
    requires ClosesAt(files, band, seconds, budget, k, item)
    ensures 0 < k < |files| && KeptOut(files[k], files[k - 1], item, band, seconds, budget)
  {
  }

  method Pack(files: seq<Group>, band: Group -> nat, seconds: Group -> real, budget: real)
    returns (items: seq<Group>)
    ensures exists spans :: Packed(Banded(files, band), |files|, band, seconds, budget, spans, items)
  {
    hide Banded, Joined, Packed, MayJoin;
    var ordered := Banded(files, band);
    BandedIsStable(files, band, 0);
    assert |multiset(ordered)| == |multiset(files)|;
    items := [];
    ghost var spans: seq<Range> := [];
    NothingPacked(ordered, band, seconds, budget);
    for k := 0 to |ordered|
      invariant Packed(ordered, k, band, seconds, budget, spans, items)
      invariant items == [] <==> k == 0
    {
      var ids := ordered[k];
      if items != [] && band(ids) == band(ordered[k - 1]) && MayJoin(items[|items| - 1], ids, band, seconds, budget) {
        PackedJoins(ordered, k, band, seconds, budget, spans, items);
        var last := |items| - 1;
        items := items[last := items[last] + ids];
        spans := spans[last := (spans[last].0, k + 1)];
      } else {
        PackedOpens(ordered, k, band, seconds, budget, spans, items);
        items := items + [ids];
        spans := spans + [(k, k + 1)];
      }
    }
  }

  lemma NothingPacked(files: seq<Group>, band: Group -> nat, seconds: Group -> real, budget: real)
    ensures Packed(files, 0, band, seconds, budget, [], [])
  {
  }

  lemma PackedJoins(files: seq<Group>, k: nat, band: Group -> nat, seconds: Group -> real, budget: real,
                    spans: seq<Range>, items: seq<Group>)
    requires Packed(files, k, band, seconds, budget, spans, items) && items != [] && 0 < k < |files|
    requires band(files[k]) == band(files[k - 1]) && MayJoin(items[|items| - 1], files[k], band, seconds, budget)
    ensures var last := |items| - 1;
            && |spans| == |items|
            && Packed(files, k + 1, band, seconds, budget, spans[last := (spans[last].0, k + 1)],
                      items[last := items[last] + files[k]])
  {
    hide MayJoin, Joined, ClosesAt, PackedItem;
    var last := |items| - 1;
    PackedLonger(files, k, band, seconds, budget, spans[last], items[last]);
  }

  lemma PackedLonger(files: seq<Group>, k: nat, band: Group -> nat, seconds: Group -> real, budget: real, span: Range,
                     item: Group)
    requires PackedItem(files, band, seconds, budget, span, item) && span.1 == k && 0 < k < |files|
    requires band(files[k]) == band(files[k - 1]) && MayJoin(item, files[k], band, seconds, budget)
    ensures PackedItem(files, band, seconds, budget, (span.0, k + 1), item + files[k])
  {
    hide MayJoin, Joined;
    JoinedStep(files, span.0, k);
    PackedSpan(files, band, seconds, budget, span, item);
  }

  lemma PackedOpens(files: seq<Group>, k: nat, band: Group -> nat, seconds: Group -> real, budget: real,
                    spans: seq<Range>, items: seq<Group>)
    requires Packed(files, k, band, seconds, budget, spans, items) && k < |files| && (items == [] <==> k == 0)
    requires k > 0 ==> band(files[k]) != band(files[k - 1])
                       || !MayJoin(items[|items| - 1], files[k], band, seconds, budget)
    ensures Packed(files, k + 1, band, seconds, budget, spans + [(k, k + 1)], items + [files[k]])
  {
    hide MayJoin, Joined, PackedItem, Consecutive, ClosesAt;
    assert k > 0 ==> ClosesAt(files, band, seconds, budget, k, items[|items| - 1]) by {
      ClosesHere(files, k, band, seconds, budget, items);
    }
    OneFilePacked(files, k, band, seconds, budget);
    ConsecutiveGrows(spans, k, k + 1);
  }

  lemma ClosesHere(files: seq<Group>, k: nat, band: Group -> nat, seconds: Group -> real, budget: real,
                   items: seq<Group>)
    requires k < |files| && (items == [] ==> k == 0)
    requires k > 0 ==> band(files[k]) != band(files[k - 1])
                       || !MayJoin(items[|items| - 1], files[k], band, seconds, budget)
    ensures k > 0 ==> ClosesAt(files, band, seconds, budget, k, items[|items| - 1])
  {
  }

  lemma OneFilePacked(files: seq<Group>, k: nat, band: Group -> nat, seconds: Group -> real, budget: real)
    requires k < |files|
    ensures PackedItem(files, band, seconds, budget, (k, k + 1), files[k])
  {
    hide MayJoin, Joined;
    JoinedStep(files, k, k);
  }

  lemma ConsecutiveGrows(spans: seq<Range>, upto: nat, next: nat)
    requires Consecutive(spans, upto)
    ensures Consecutive(spans + [(upto, next)], next)
  {
  }

  lemma JoinedStep(files: seq<Group>, a: nat, b: nat)
    requires a <= b < |files|
    ensures Joined(files, a, b + 1) == Joined(files, a, b) + files[b]
    ensures Joined(files, b, b) == []
  {
  }

  lemma {:induction false} JoinedKeepsAll(files: seq<Group>, a: nat, b: nat)
    requires a <= b <= |files|
    ensures IdsIn(files[..b]) == IdsIn(files[..a]) + multiset(Joined(files, a, b))
    decreases b
  {
    if a < b {
      JoinedKeepsAll(files, a, b - 1);
      assert files[..b][..b - 1] == files[..b - 1];
    }
  }

  /** Packing loses no id and leaves no item empty. */
  lemma {:induction false} PackedKeepsAll(files: seq<Group>, upto: nat, band: Group -> nat, seconds: Group -> real,
                                          budget: real, spans: seq<Range>, items: seq<Group>)
    requires Packed(files, upto, band, seconds, budget, spans, items) && upto <= |files| && AllNonEmpty(files)
    ensures IdsIn(items) == IdsIn(files[..upto])
    ensures AllNonEmpty(items)
  {
    hide Joined, MayJoin, IdsIn, PackedItem, Packed, Consecutive;
    if items == [] {
      NothingTaken(files, upto, band, seconds, budget, spans);
      NoGroups();
    } else {
      var last := |items| - 1;
      assert items == items[..last] + [items[last]];
      PackedFront(files, upto, band, seconds, budget, spans, items);
      PackedSpan(files, band, seconds, budget, spans[last], items[last]);
      PackedKeepsAll(files, spans[last].0, band, seconds, budget, spans[..last], items[..last]);
      JoinedKeepsAll(files, spans[last].0, upto);
      JoinedIsNonEmpty(files, spans[last].0, upto);
      IdsInGrows(items[..last], items[last]);
    }
  }

  lemma NothingTaken(files: seq<Group>, upto: nat, band: Group -> nat, seconds: Group -> real, budget: real,
                     spans: seq<Range>)
    requires Packed(files, upto, band, seconds, budget, spans, []) && upto <= |files|
    ensures IdsIn(files[..upto]) == multiset{}
  {
    assert files[..0] == [];
  }

  lemma PackedSpan(files: seq<Group>, band: Group -> nat, seconds: Group -> real, budget: real, span: Range,
                   item: Group)
    requires PackedItem(files, band, seconds, budget, span, item)
    ensures span.0 < span.1 <= |files| && item == Joined(files, span.0, span.1)
    ensures forall k :: span.0 <= k < span.1 ==> band(files[k]) == band(files[span.0])
    ensures span.1 > span.0 + 1 ==>
              MayJoin(Joined(files, span.0, span.1 - 1), files[span.1 - 1], band, seconds, budget)
  {
    hide Joined, MayJoin;
  }

  lemma PackedFront(files: seq<Group>, upto: nat, band: Group -> nat, seconds: Group -> real, budget: real,
                    spans: seq<Range>, items: seq<Group>)
    requires Packed(files, upto, band, seconds, budget, spans, items) && items != []
    ensures var last := |items| - 1;
            && |spans| == |items| && spans[last].1 == upto
            && PackedItem(files, band, seconds, budget, spans[last], items[last])
            && Packed(files, spans[last].0, band, seconds, budget, spans[..last], items[..last])
  {
    hide MayJoin, Joined, PackedItem, ClosesAt;
    var last := |items| - 1;
    assert last == 0 || spans[..last][last - 1] == spans[last - 1];
  }

  lemma {:induction false} JoinedIsNonEmpty(files: seq<Group>, a: nat, b: nat)
    requires a < b <= |files| && AllNonEmpty(files)
    ensures Joined(files, a, b) != []
  {
    assert files[b - 1] in files;
  }

  /** Every item of several files keeps to the budget, and its class to one above its files' own. */
  lemma PackedWithin(files: seq<Group>, upto: nat, band: Group -> nat, seconds: Group -> real, budget: real,
                     spans: seq<Range>, items: seq<Group>, n: nat)
    requires Packed(files, upto, band, seconds, budget, spans, items) && n < |items| && spans[n].1 > spans[n].0 + 1
    ensures seconds(items[n]) <= budget
    ensures forall k :: spans[n].0 <= k < spans[n].1 ==> band(items[n]) <= band(files[k]) + ACCUMULATED_CLASSES
  {
    hide Joined, ClosesAt, Consecutive, PackedItem;
    var (a, b) := spans[n];
    PackedSpan(files, band, seconds, budget, spans[n], items[n]);
    JoinedStep(files, a, b - 1);
  }
}
