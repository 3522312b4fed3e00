/** What an id's growth does to the ask of an item that holds it: when it raises the ask, and when it lowers it. */
module Asks {
  import opened Ordered
  import opened Sums
  import opened PytestItem
  import opened Measured
  import opened Records
  import opened Growth

  // ----- the peaks of an item

  /** What `ids` peak at, file by file, when each is padded to the declared memory. */
  function Peaks(facts: Facts, ids: seq<Id>, prior: string -> real, memGb: real, safety: real, grown: Amounts): Amounts
    requires safety > 0.0
  {
    FilePeaks(facts, ids, prior, memGb * MB_PER_GB / safety, grown)
  }

  /** The distinct peaks of the files other than `file`, lightest first. */
  function OtherPeaks(peaks: Amounts, files: seq<string>, file: string): (r: seq<real>)
    ensures Ascending(r)
    ensures forall x :: x in r <==> exists f :: f in files && f != file && Get(peaks, f) == x
  {
    if files == [] then []
    else
      var last, front := files[|files| - 1], files[..|files| - 1];
      assert files == front + [last];
      if last == file then OtherPeaks(peaks, front, file)
      else Insert(Get(peaks, last), OtherPeaks(peaks, front, file))
  }

  lemma {:induction false} PeaksAreOfFiles(peaks: Amounts, files: seq<string>)
    ensures forall x :: x in DistinctPeaks(peaks, files) <==> exists f :: f in files && Get(peaks, f) == x
    ensures |DistinctPeaks(peaks, files)| <= |files|
  {
    if files != [] {
      var front, last := files[..|files| - 1], files[|files| - 1];
      assert files == front + [last];
      PeaksAreOfFiles(peaks, front);
      InsertIsLonger(Get(peaks, last), DistinctPeaks(peaks, front));
    }
  }

  lemma {:induction false} InsertIsLonger(x: real, xs: seq<real>)
    requires Ascending(xs)
    ensures |Insert(x, xs)| == if x in xs then |xs| else |xs| + 1
  {
    if xs != [] && x > xs[0] {
      InsertIsLonger(x, xs[1..]);
      assert xs == [xs[0]] + xs[1..];
    } else if xs != [] && x < xs[0] {
      assert x !in xs;
    }
  }

  lemma FirstAndRest(xs: seq<real>)
    requires Ascending(xs) && xs != []
    ensures Ascending(xs[1..])
    ensures forall x :: x in xs ==> xs[0] <= x
    ensures forall x :: x in xs[1..] <==> x in xs && x != xs[0]
  {
    assert xs == [xs[0]] + xs[1..];
    forall i | 0 <= i < |xs[1..]|
      ensures xs[1..][i] > xs[0]
    {
      assert xs[1..][i] == xs[i + 1];
    }
  }

  /** Ascending numbers are told by what they hold. */
  lemma {:induction false} SameMembers(xs: seq<real>, ys: seq<real>)
    requires Ascending(xs) && Ascending(ys) && forall x :: x in xs <==> x in ys
    ensures xs == ys
  {
    assert forall i :: 0 <= i < |ys| ==> ys[i] in ys;
    assert |ys| == 0 || ys[0] in xs;
    if xs != [] {
      assert xs[0] in ys && ys[0] in xs;
      FirstAndRest(xs);
      FirstAndRest(ys);
      SameMembers(xs[1..], ys[1..]);
      assert xs == [xs[0]] + xs[1..] && ys == [ys[0]] + ys[1..];
    }
  }

  /** All peaks are those of the other files and the one of `file`. */
  lemma OneFileApart(peaks: Amounts, files: seq<string>, file: string)
    requires file in files
    ensures DistinctPeaks(peaks, files) == Insert(Get(peaks, file), OtherPeaks(peaks, files, file))
  {
    PeaksAreOfFiles(peaks, files);
    SameMembers(DistinctPeaks(peaks, files), Insert(Get(peaks, file), OtherPeaks(peaks, files, file)));
  }

  predicate IsWorst(worst: real, a: real, b: real, c: real) {
    worst >= a && worst >= b && worst >= c && worst in {a, b, c}
  }

  predicate GrownTo(need: real, worst: real, growth: real) {
    need == worst * growth
  }

  /** What an id needs: the worst of what its file peaked at, or is thought to, its own floor and the declared memory,
      times what the run's kills of it grew it by. */
  lemma WhatAnIdNeeds(facts: Facts, prior: string -> real, least: real, grown: Amounts, node: Id)
    ensures var known := if FileOf(node) in facts.peaks then facts.peaks[FileOf(node)] else prior(FileOf(node));
            var floor := if node in facts.idPeaks then facts.idPeaks[node] else 0.0;
            exists worst :: IsWorst(worst, known, floor, least) &&
              GrownTo(Need(facts, prior, least, grown, node), worst, if node in grown then grown[node] else 1.0)
  {
    hide FileOf;
    var known := if FileOf(node) in facts.peaks then facts.peaks[FileOf(node)] else prior(FileOf(node));
    var worst := Max(Max(known, Get(facts.idPeaks, node)), least);
    assert GrownTo(Need(facts, prior, least, grown, node), worst, if node in grown then grown[node] else 1.0);
    hide Need, GrownTo;
    assert IsWorst(worst, known, Get(facts.idPeaks, node), least);
  }

  /** A file peaks at its worst id of the item. */
  lemma {:induction false} PeakIsAttained(facts: Facts, ids: seq<Id>, prior: string -> real, least: real,
                                          grown: Amounts, file: string)
    ensures forall n :: n in ids && FileOf(n) == file ==>
              Get(FilePeaks(facts, ids, prior, least, grown), file) >= Need(facts, prior, least, grown, n)
    ensures Get(FilePeaks(facts, ids, prior, least, grown), file) > 0.0 ==>
              exists n :: n in ids && FileOf(n) == file &&
                Get(FilePeaks(facts, ids, prior, least, grown), file) == Need(facts, prior, least, grown, n)
  {
    if ids != [] {
      hide FileOf, Need, FilePeaks;
      var front, last := ids[..|ids| - 1], ids[|ids| - 1];
      assert ids == front + [last];
      PeakIsAttained(facts, front, prior, least, grown, file);
      PeaksUnfold(facts, ids, prior, least, grown, file);
    }
  }

  // ----- what distinct peaks accumulate to

  function Times(many: int, amount: real): real {
    many as real * amount
  }

  lemma TimesOf(many: int, a: real, b: real)
    ensures Times(many + 1, a) == Times(many, a) + a
    ensures Times(many, a) - Times(many, b) == Times(many, a - b)
    ensures Times(0, a) == 0.0
    ensures Times(many, -a) == -Times(many, a)
  {
  }

  lemma {:induction false} SumOverBase(xs: seq<real>, base: real)
    ensures Sum(xs, OverBase(base)) == Sum(xs, Itself()) - Times(|xs|, base)
  {
    TimesOf(|xs| - 1, base, base);
    if xs == [] {
      TimesOf(0, base, base);
    } else {
      hide Times;
      SumOverBase(xs[..|xs| - 1], base);
    }
  }

  /** All peaks together, less the lightest once for every peak but one. */
  lemma AccumulatedIsTotal(peaks: seq<real>)
    requires peaks != []
    ensures Accumulated(peaks) == Sum(peaks, Itself()) - Times(|peaks| - 1, peaks[0])
  {
    hide Times;
    SumOverBase(peaks[..|peaks| - 1], peaks[0]);
  }

  lemma {:induction false} InsertedTotal(x: real, xs: seq<real>)
    requires Ascending(xs)
    ensures Sum(Insert(x, xs), Itself()) == Sum(xs, Itself()) + if x in xs then 0.0 else x
    ensures Insert(x, xs)[0] == if xs == [] then x else Min(x, xs[0])
  {
    if xs == [] {
      assert Insert(x, xs) == [x];
      assert [x][..0] == [];
    } else {
      FirstAndRest(xs);
      assert xs == [xs[0]] + xs[1..];
      if x < xs[0] {
        SumConcat([x], xs, Itself());
        OneSum(x);
      } else if x > xs[0] {
        InsertedTotal(x, xs[1..]);
        hide Sum;
        SumConcat([xs[0]], xs[1..], Itself());
        SumConcat([xs[0]], Insert(x, xs[1..]), Itself());
      }
    }
  }

  lemma OneSum(x: real)
    ensures Sum([x], Itself()) == x
  {
    assert [x][..0] == [];
  }

  /** What one more peak adds: its distance below the lightest for every other peak, or its height above, once. */
  lemma AccumulatedWith(peak: real, others: seq<real>)
    requires Ascending(others)
    ensures Accumulated(Insert(peak, others)) ==
            if others == [] then peak
            else if peak <= others[0] then Accumulated(others) + Times(|others| - 1, others[0] - peak)
            else if peak in others then Accumulated(others)
            else Accumulated(others) + (peak - others[0])
  {
    hide Times, Accumulated, Sum, Insert, Ascending;
    InsertedTotal(peak, others);
    InsertIsLonger(peak, others);
    AccumulatedIsTotal(Insert(peak, others));
    if others == [] {
      assert Sum([], Itself()) == 0.0 by { NoSum(); }
      TimesOf(0, peak, peak);
    } else {
      AccumulatedIsTotal(others);
      FirstAndRest(others);
      TimesOf(|others| - 1, peak, others[0]);
      TimesOf(|others| - 1, others[0], peak);
    }
  }

  lemma NoSum()
    ensures Sum([], Itself()) == 0.0
  {
  }

  // ----- when growth lowers an ask

  /**
   A file's peak that rises from `before` to `after` lowers what its item accumulates: it was the lightest, and the
   other distinct peaks, one of them aside, lose more over the new lightest than it gains above them; or it was not, and
   it comes to equal another, which then counts once.
   */
  predicate Lowers(others: seq<real>, before: real, after: real) {
    && others != [] && before !in others
    && if before < others[0] then
         Times(|others| - 1, Min(after, others[0]) - before) >
         (if after <= others[0] || after in others then 0.0 else after - others[0])
       else after in others
  }

  lemma AccumulatesLess(others: seq<real>, before: real, after: real)
    requires Ascending(others) && before <= after
    ensures Accumulated(Insert(after, others)) < Accumulated(Insert(before, others)) <==> Lowers(others, before, after)
  {
    hide Accumulated, Insert, Times;
    AccumulatedWith(before, others);
    AccumulatedWith(after, others);
    if others != [] {
      FirstAndRest(others);
      TimesOf(|others| - 1, others[0] - before, others[0] - Min(after, others[0]));
      TimesOf(|others| - 1, 0.0, 0.0);
    }
  }

  lemma PeaksUnfold(facts: Facts, ids: seq<Id>, prior: string -> real, least: real, grown: Amounts, file: string)
    requires ids != []
    ensures var front, last := ids[..|ids| - 1], ids[|ids| - 1];
            Get(FilePeaks(facts, ids, prior, least, grown), file) ==
            if file != FileOf(last) then Get(FilePeaks(facts, front, prior, least, grown), file)
            else Max(Get(FilePeaks(facts, front, prior, least, grown), file), Need(facts, prior, least, grown, last))
  {
    hide FileOf, Need;
  }

  /** Growth of one id raises its own file's peak and no other. */
  lemma {:induction false} OnePeakRises(facts: Facts, ids: seq<Id>, prior: string -> real, least: real, grown: Amounts,
                                        node: Id, growth: real)
    requires GrowsOnly(grown) && growth >= GrowthOf(grown, node) && least >= 0.0
    ensures var before, after := FilePeaks(facts, ids, prior, least, grown),
                                 FilePeaks(facts, ids, prior, least, grown[node := growth]);
            && Get(before, FileOf(node)) <= Get(after, FileOf(node))
            && forall f :: f != FileOf(node) ==> Get(before, f) == Get(after, f)
  {
    if ids != [] {
      hide FileOf, Need, FilePeaks;
      OnePeakRises(facts, ids[..|ids| - 1], prior, least, grown, node, growth);
      NeedRises(facts, prior, least, grown, grown[node := growth], ids[|ids| - 1]);
      if ids[|ids| - 1] != node { SameNeed(facts, prior, least, grown, node, growth, ids[|ids| - 1]); }
      var before, after := FilePeaks(facts, ids, prior, least, grown),
                           FilePeaks(facts, ids, prior, least, grown[node := growth]);
      forall f
        ensures Get(before, f) <= Get(after, f) && (f != FileOf(node) ==> Get(before, f) == Get(after, f))
      {
        PeaksUnfold(facts, ids, prior, least, grown, f);
        PeaksUnfold(facts, ids, prior, least, grown[node := growth], f);
      }
    }
  }

  lemma SameNeed(facts: Facts, prior: string -> real, least: real, grown: Amounts, node: Id, growth: real, other: Id)
    requires other != node
    ensures Need(facts, prior, least, grown[node := growth], other) == Need(facts, prior, least, grown, other)
  {
  }

  lemma Stretched(need: real, less: real, more: real)
    requires need >= 0.0 && less <= more
    ensures need * less <= need * more
  {
    assert need * (more - less) >= 0.0;
  }

  lemma NeedRises(facts: Facts, prior: string -> real, least: real, grown: Amounts, more: Amounts, node: Id)
    requires least >= 0.0 && GrowthOf(grown, node) <= GrowthOf(more, node)
    ensures Need(facts, prior, least, grown, node) <= Need(facts, prior, least, more, node)
  {
    hide FileOf;
    var file := FileOf(node);
    var known := if file in facts.peaks then facts.peaks[file] else prior(file);
    var need := Max(Max(known, Get(facts.idPeaks, node)), least);
    Stretched(need, GrowthOf(grown, node), GrowthOf(more, node));
  }

  lemma LeastPads(memGb: real, safety: real)
    requires memGb >= 0.0 && safety > 0.0
    ensures var least := memGb * MB_PER_GB / safety;
            least >= 0.0 && least / MB_PER_GB * safety == memGb
  {
    var least := memGb * MB_PER_GB / safety;
    assert least * safety == memGb * MB_PER_GB;
    assert least / MB_PER_GB * safety == least * safety / MB_PER_GB;
  }

  /** An item whose ids only grow asks what its peaks accumulate to: that is never under the declared memory. */
  lemma AskIsAccumulated(facts: Facts, ids: seq<Id>, prior: string -> real, memGb: real, safety: real, grown: Amounts)
    requires ids != [] && GrowsOnly(grown) && memGb >= 0.0 && safety > 0.0
    ensures var peaks := DistinctPeaks(Peaks(facts, ids, prior, memGb, safety, grown), Files(ids));
            ItemGb(facts, ids, prior, memGb, safety, grown) == Accumulated(peaks) / MB_PER_GB * safety
  {
    hide FileOf, Need, Accumulated, DistinctPeaks, FilePeaks, Files, Get;
    assert FileOf(ids[0]) in Files(ids);
    var least := memGb * MB_PER_GB / safety;
    var peaks := FilePeaks(facts, ids, prior, least, grown);
    WorstIdOfItsFile(facts, ids, prior, least, grown, ids[0]);
    NeedIsPadded(facts, prior, least, grown, ids[0]);
    AccumulatedIsWorst(DistinctPeaks(peaks, Files(ids)), Get(peaks, FileOf(ids[0])));
    InGb(least, Accumulated(DistinctPeaks(peaks, Files(ids))), safety);
    LeastPads(memGb, safety);
  }

  lemma NeedIsPadded(facts: Facts, prior: string -> real, least: real, grown: Amounts, node: Id)
    requires GrowsOnly(grown) && least >= 0.0
    ensures Need(facts, prior, least, grown, node) >= least
  {
    hide FileOf;
    var file := FileOf(node);
    var known := if file in facts.peaks then facts.peaks[file] else prior(file);
    Scaled(Max(Max(known, Get(facts.idPeaks, node)), least), GrowthOf(grown, node));
  }

  /**
   GROWTH LOWERS AN ASK EXACTLY SO: an item that holds `node` asks for less once that id's growth rises, exactly when
   its file's peak rises as `Lowers` says beside the peaks of the item's other files.
   */
  lemma GrowthLowersExactly(facts: Facts, ids: seq<Id>, prior: string -> real, memGb: real, safety: real,
                            grown: Amounts, node: Id, growth: real)
    requires node in ids && GrowsOnly(grown) && growth >= GrowthOf(grown, node) && memGb >= 0.0 && safety > 0.0
    ensures var before, after := Peaks(facts, ids, prior, memGb, safety, grown),
                                 Peaks(facts, ids, prior, memGb, safety, grown[node := growth]);
            var file := FileOf(node);
            ItemGb(facts, ids, prior, memGb, safety, grown[node := growth]) <
            ItemGb(facts, ids, prior, memGb, safety, grown) <==>
            Lowers(OtherPeaks(before, Files(ids), file), Get(before, file), Get(after, file))
  {
    hide FileOf, FilePeaks, DistinctPeaks, Accumulated, ItemGb, Lowers, Files, OtherPeaks;
    var least := memGb * MB_PER_GB / safety;
    var before, after := FilePeaks(facts, ids, prior, least, grown), FilePeaks(facts, ids, prior, least,
                                                                               grown[node := growth]);
    var file, files := FileOf(node), Files(ids);
    OnePeakRises(facts, ids, prior, least, grown, node, growth);
    OneFileApart(before, files, file);
    OneFileApart(after, files, file);
    SameMembers(OtherPeaks(before, files, file), OtherPeaks(after, files, file));
    AccumulatesLess(OtherPeaks(before, files, file), Get(before, file), Get(after, file));
    AskIsAccumulated(facts, ids, prior, memGb, safety, grown);
    AskIsAccumulated(facts, ids, prior, memGb, safety, grown[node := growth]);
    InGb(Accumulated(DistinctPeaks(before, files)), Accumulated(DistinctPeaks(after, files)), safety);
  }

  // ----- when it never does

  lemma {:induction false} PeaksRise(facts: Facts, ids: seq<Id>, prior: string -> real, least: real, grown: Amounts,
                                     more: Amounts)
    requires least >= 0.0 && forall n :: GrowthOf(grown, n) <= GrowthOf(more, n)
    ensures forall f :: Get(FilePeaks(facts, ids, prior, least, grown), f) <=
                        Get(FilePeaks(facts, ids, prior, least, more), f)
  {
    if ids != [] {
      hide FileOf, Need, FilePeaks;
      PeaksRise(facts, ids[..|ids| - 1], prior, least, grown, more);
      NeedRises(facts, prior, least, grown, more, ids[|ids| - 1]);
      forall f
        ensures Get(FilePeaks(facts, ids, prior, least, grown), f) <= Get(FilePeaks(facts, ids, prior, least, more), f)
      {
        PeaksUnfold(facts, ids, prior, least, grown, f);
        PeaksUnfold(facts, ids, prior, least, more, f);
      }
    }
  }

  lemma TwoAccumulateToTheWorst(peaks: seq<real>)
    requires Ascending(peaks) && 1 <= |peaks| <= 2
    ensures Accumulated(peaks) == peaks[|peaks| - 1]
  {
    if |peaks| == 2 {
      assert peaks[..1] == [peaks[0]];
      assert Sum([peaks[0]], OverBase(peaks[0])) == Sum([], OverBase(peaks[0])) + 0.0;
    }
  }

  lemma WorstRises(before: Amounts, after: Amounts, files: seq<string>)
    requires files != [] && forall f :: Get(before, f) <= Get(after, f)
    requires |files| <= 2 || |DistinctPeaks(before, files)| <= 2
    ensures Accumulated(DistinctPeaks(before, files)) <= Accumulated(DistinctPeaks(after, files))
  {
    hide Accumulated, Get;
    var peaks := DistinctPeaks(before, files);
    PeaksAreOfFiles(before, files);
    hide DistinctPeaks;
    TwoAccumulateToTheWorst(peaks);
    assert peaks[|peaks| - 1] in peaks;
    var worst :| worst in files && Get(before, worst) == peaks[|peaks| - 1];
    AccumulatedIsWorst(DistinctPeaks(after, files), Get(after, worst));
  }

  /** Growth of any ids never lowers the ask of an item of at most two files, or of two distinct peaks. */
  lemma GrowthNeverLowersTwo(facts: Facts, ids: seq<Id>, prior: string -> real, memGb: real, safety: real,
                             grown: Amounts, more: Amounts)
    requires GrowsOnly(grown) && GrowsOnly(more) && memGb >= 0.0 && safety > 0.0
    requires forall n :: GrowthOf(grown, n) <= GrowthOf(more, n)
    requires |Files(ids)| <= 2 ||
             |DistinctPeaks(Peaks(facts, ids, prior, memGb, safety, grown), Files(ids))| <= 2
    ensures ItemGb(facts, ids, prior, memGb, safety, more) >= ItemGb(facts, ids, prior, memGb, safety, grown)
  {
    hide FilePeaks, DistinctPeaks, Accumulated, ItemGb, Get, GrowsOnly, GrowthOf;
    if ids == [] {
      NothingAsks(facts, prior, memGb, safety, grown);
      NothingAsks(facts, prior, memGb, safety, more);
    } else {
      var files := Files(ids);
      assert files != [];
      hide Files;
      var before := Peaks(facts, ids, prior, memGb, safety, grown);
      var after := Peaks(facts, ids, prior, memGb, safety, more);
      LeastPads(memGb, safety);
      PeaksRise(facts, ids, prior, memGb * MB_PER_GB / safety, grown, more);
      WorstRises(before, after, files);
      hide Peaks;
      InGb(Accumulated(DistinctPeaks(before, files)), Accumulated(DistinctPeaks(after, files)), safety);
      AskIsAccumulated(facts, ids, prior, memGb, safety, grown);
      AskIsAccumulated(facts, ids, prior, memGb, safety, more);
    }
  }

  lemma NothingAsks(facts: Facts, prior: string -> real, memGb: real, safety: real, grown: Amounts)
    requires safety > 0.0
    ensures ItemGb(facts, [], prior, memGb, safety, grown) == Max(0.0, memGb)
  {
    assert Files([]) == [];
    assert 0.0 / MB_PER_GB * safety == 0.0;
  }

  // ----- a round after which a half asks for less

  const SIX: seq<Id> := ["a::t", "b::t", "c::t", "d::t", "e::t", "f::t"]
  const KILLED := Growth.Round.Round([SIX], [RanOutOfMemory], {}, true, {})
  const KNOWN := Facts(Durations([], map[]), map[], map[], map["a" := 2048.0, "b" := 4096.0, "c" := 6144.0], map[], {},
                       {})

  lemma OneLetter(letter: char)
    requires letter != ':'
    ensures FileOf([letter] + "::t") == [letter]
  {
    var node := [letter] + "::t";
    assert node[..2] == [letter, ':'] && node[1..] == "::t" && "::t"[..2] == "::";
  }

  const HALF: seq<Id> := ["a::t", "b::t", "c::t"]

  lemma TheHalf()
    ensures Halves(SIX)[0] == HALF
    ensures Grown(map[], KILLED) == map["a::t" := 2.0]
  {
    assert SIX[..3] == HALF;
    assert CutTo(KILLED, 1) == {"a::t"};
    assert FinishedTo(KILLED, 1) == {};
  }

  lemma ThreeNames()
    ensures FileOf("a::t") == "a" && FileOf("b::t") == "b" && FileOf("c::t") == "c"
  {
    hide FileOf;
    OneLetter('a');
    OneLetter('b');
    OneLetter('c');
    assert ['a'] + "::t" == "a::t" && ['b'] + "::t" == "b::t" && ['c'] + "::t" == "c::t";
  }

  lemma Fronts()
    ensures HALF[..2] == ["a::t", "b::t"] && HALF[..2][..1] == ["a::t"] && HALF[..2][..1][..0] == []
  {
  }

  lemma ThreeFiles()
    ensures Files(HALF) == ["a", "b", "c"]
  {
    hide FileOf, Files;
    ThreeNames();
    Apart();
    AllInOrder(HALF[0], HALF[1], HALF[2]);
  }

  lemma Apart()
    ensures "a" != "b" && "a" != "c" && "b" != "c"
  {
    assert "a"[0] != "b"[0] && "a"[0] != "c"[0] && "b"[0] != "c"[0];
  }

  lemma AllInOrder(x: Id, y: Id, z: Id)
    requires FileOf(x) != FileOf(y) && FileOf(x) != FileOf(z) && FileOf(y) != FileOf(z)
    ensures Files([x, y, z]) == [FileOf(x), FileOf(y), FileOf(z)]
  {
    hide FileOf, Files;
    assert [] + [x] == [x] && [x] + [y] == [x, y] && [x, y] + [z] == [x, y, z];
    OneMoreFile([], x);
    assert Files([x]) == [FileOf(x)];
    OneMoreFile([x], y);
    assert Files([x, y]) == [FileOf(x), FileOf(y)];
    OneMoreFile([x, y], z);
  }

  lemma OneMoreFile(ids: seq<Id>, node: Id)
    ensures Files([]) == []
    ensures Files(ids + [node]) == if FileOf(node) in Files(ids) then Files(ids) else Files(ids) + [FileOf(node)]
  {
    hide FileOf;
    assert (ids + [node])[..|ids|] == ids;
  }

  lemma NeedsOfThree(grown: Amounts)
    requires grown == map[] || grown == map["a::t" := 2.0]
    ensures Need(KNOWN, Const(0.0), 1024.0, grown, "a::t") == if grown == map[] then 2048.0 else 4096.0
    ensures Need(KNOWN, Const(0.0), 1024.0, grown, "b::t") == 4096.0
    ensures Need(KNOWN, Const(0.0), 1024.0, grown, "c::t") == 6144.0
  {
    ThreeNames();
    hide FileOf;
  }

  lemma PeaksOfThree(grown: Amounts)
    requires grown == map[] || grown == map["a::t" := 2.0]
    ensures var peaks := FilePeaks(KNOWN, HALF, Const(0.0), 1024.0, grown);
            && Get(peaks, "a") == (if grown == map[] then 2048.0 else 4096.0)
            && Get(peaks, "b") == 4096.0 && Get(peaks, "c") == 6144.0
  {
    ThreeNames();
    Fronts();
    NeedsOfThree(grown);
    hide FileOf, Need;
    var prior := Const(0.0);
    assert FilePeaks(KNOWN, [], prior, 1024.0, grown) == map[];
    assert FilePeaks(KNOWN, ["a::t"], prior, 1024.0, grown).Keys == {"a"};
    assert FilePeaks(KNOWN, ["a::t", "b::t"], prior, 1024.0, grown).Keys == {"a", "b"};
  }

  lemma ThreePeaks(peaks: Amounts)
    requires Get(peaks, "a") <= Get(peaks, "b") < Get(peaks, "c")
    ensures DistinctPeaks(peaks, ["a", "b", "c"]) ==
            if Get(peaks, "a") == Get(peaks, "b") then [Get(peaks, "b"), Get(peaks, "c")]
            else [Get(peaks, "a"), Get(peaks, "b"), Get(peaks, "c")]
  {
    hide Get, DistinctPeaks;
    var files, a, b, c := ["a", "b", "c"], Get(peaks, "a"), Get(peaks, "b"), Get(peaks, "c");
    PeaksAreOfFiles(peaks, files);
    assert "a" in files && "b" in files && "c" in files;
    SameMembers(DistinctPeaks(peaks, files), if a == b then [b, c] else [a, b, c]);
  }

  lemma AskOfThree(grown: Amounts)
    requires grown == map[] || grown == map["a::t" := 2.0]
    ensures ItemGb(KNOWN, HALF, Const(0.0), 1.0, 1.0, grown) == if grown == map[] then 8.0 else 6.0
  {
    AskIsAccumulated(KNOWN, HALF, Const(0.0), 1.0, 1.0, grown);
    HeldByThree(grown);
    hide ItemGb, FilePeaks, Files, DistinctPeaks, Accumulated;
  }

  lemma HeldByThree(grown: Amounts)
    requires grown == map[] || grown == map["a::t" := 2.0]
    ensures Accumulated(DistinctPeaks(FilePeaks(KNOWN, HALF, Const(0.0), 1024.0, grown), Files(HALF))) ==
            if grown == map[] then 8192.0 else 6144.0
  {
    hide FilePeaks, Files, DistinctPeaks, Accumulated, Get;
    ThreeFiles();
    PeaksOfThree(grown);
    ThreePeaks(FilePeaks(KNOWN, HALF, Const(0.0), 1024.0, grown));
    ThreeAccumulate(2048.0, 4096.0, 6144.0);
    TwoAccumulateToTheWorst([4096.0, 6144.0]);
  }

  lemma ThreeAccumulate(a: real, b: real, c: real)
    ensures Accumulated([a, b, c]) == c + b - a
  {
    var peaks := [a, b, c];
    assert peaks[..2] == [a, b] && peaks[..2][..1] == [a] && peaks[..2][..1][..0] == [];
    assert Sum([a], OverBase(a)) == 0.0;
    assert Sum([a, b], OverBase(a)) == b - a;
  }

  /**
   AN ASK MAY FALL AFTER A KILL: an item of six one-test files ran out of memory in the first and closed nothing, so
   that id asks twice as much; its half of three files asked 8 GB and now asks 6, because the growth lifted the lightest
   peak to another's.
   */
  lemma AnAskMayFall()
    ensures var half, grown := Halves(SIX)[0], Grown(map[], KILLED);
            && half == ["a::t", "b::t", "c::t"] && grown == map["a::t" := 2.0]
            && ItemGb(KNOWN, half, Const(0.0), 1.0, 1.0, map[]) == 8.0
            && ItemGb(KNOWN, half, Const(0.0), 1.0, 1.0, grown) == 6.0
  {
    TheHalf();
    AskOfThree(map[]);
    AskOfThree(map["a::t" := 2.0]);
    hide ItemGb, Halves, Grown;
  }
}
