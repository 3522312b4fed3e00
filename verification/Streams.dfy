/** What a stream says of an item: its close, what it ran last, what each test took; and how a file's lines read. */
module Streams {
  import opened Options
  import opened PytestItem

  // ----- one item's lines

  /** The last line that closes, if any. */
  ghost predicate LastClose(lines: seq<Content>, k: int) {
    0 <= k < |lines| && lines[k].Close? && forall j :: k < j < |lines| ==> !lines[j].Close?
  }

  ghost predicate LastStart(lines: seq<Content>, k: int) {
    0 <= k < |lines| && lines[k].Start? && forall j :: k < j < |lines| ==> !lines[j].Start?
  }

  /** What the phases of `node` took together. */
  function Took(lines: seq<Content>, node: Id, expected: set<Id>): real {
    if lines == [] then 0.0
    else
      var front, last := lines[..|lines| - 1], lines[|lines| - 1];
      Took(front, node, expected) +
      if last.Report? && Canonical(last.id, expected) == node && last.seconds.Some? then last.seconds.value else 0.0
  }

  predicate TimedBy(lines: seq<Content>, k: int, node: Id, expected: set<Id>) {
    Reports(lines, k, node, expected) && lines[k].seconds.Some?
  }

  lemma {:induction false} WhatClosed(lines: seq<Content>, expected: set<Id>)
    ensures FoldLines(lines, expected).done.None? <==> forall k :: 0 <= k < |lines| ==> !lines[k].Close?
    ensures forall k :: LastClose(lines, k) ==> FoldLines(lines, expected).done == Some(lines[k].done)
  {
    if lines != [] {
      hide Badness, Canonical;
      WhatClosed(lines[..|lines| - 1], expected);
      assert forall k :: 0 <= k < |lines| - 1 ==> lines[k] == lines[..|lines| - 1][k];
      ClosesLater(lines);
    }
  }

  lemma {:induction false} WhatStarted(lines: seq<Content>, expected: set<Id>)
    ensures FoldLines(lines, expected).started.None? <==> forall k :: 0 <= k < |lines| ==> !lines[k].Start?
    ensures forall k :: LastStart(lines, k) ==>
              FoldLines(lines, expected).started == Some(Canonical(lines[k].id, expected))
  {
    if lines != [] {
      hide Badness, Canonical;
      WhatStarted(lines[..|lines| - 1], expected);
      assert forall k :: 0 <= k < |lines| - 1 ==> lines[k] == lines[..|lines| - 1][k];
      StartsLater(lines);
    }
  }

  lemma {:induction false} WhatTook(lines: seq<Content>, expected: set<Id>, node: Id)
    ensures var seconds := FoldLines(lines, expected).seconds;
            && (node in seconds <==> node in expected && exists k :: TimedBy(lines, k, node, expected))
            && (node in seconds ==> seconds[node] == Took(lines, node, expected))
  {
    if lines != [] {
      hide Badness, Canonical;
      var front, last := lines[..|lines| - 1], |lines| - 1;
      WhatTook(front, expected, node);
      TimedLater(lines, node, expected);
      UntimedTookNothing(front, node, expected);
      assert (exists k :: TimedBy(lines, k, node, expected)) <==>
             TimedBy(lines, last, node, expected) || exists k :: TimedBy(front, k, node, expected);
    }
  }

  /**
   WHAT A STREAM SAYS: it closed as its last close says, and not at all with none; what it ran last is what its last
   start names; and a test of the item took what its timed phases took together, and is timed exactly when one was.
   */
  lemma WhatAStreamSays(lines: seq<Content>, expected: set<Id>, node: Id)
    ensures var folded := FoldLines(lines, expected);
            && (folded.done.None? <==> forall k :: 0 <= k < |lines| ==> !lines[k].Close?)
            && (forall k :: LastClose(lines, k) ==> folded.done == Some(lines[k].done))
            && (folded.started.None? <==> forall k :: 0 <= k < |lines| ==> !lines[k].Start?)
            && (forall k :: LastStart(lines, k) ==> folded.started == Some(Canonical(lines[k].id, expected)))
            && (node in folded.seconds <==> node in expected && exists k :: TimedBy(lines, k, node, expected))
            && (node in folded.seconds ==> folded.seconds[node] == Took(lines, node, expected))
  {
    hide FoldLines, Canonical, TimedBy, LastClose, LastStart, Took;
    WhatClosed(lines, expected);
    WhatStarted(lines, expected);
    WhatTook(lines, expected, node);
  }

  lemma ClosesLater(lines: seq<Content>)
    requires lines != []
    ensures var front, last := lines[..|lines| - 1], |lines| - 1;
            forall k :: LastClose(lines, k) <==> if lines[last].Close? then k == last else LastClose(front, k)
  {
  }

  lemma StartsLater(lines: seq<Content>)
    requires lines != []
    ensures var front, last := lines[..|lines| - 1], |lines| - 1;
            forall k :: LastStart(lines, k) <==> if lines[last].Start? then k == last else LastStart(front, k)
  {
  }

  lemma TimedLater(lines: seq<Content>, node: Id, expected: set<Id>)
    requires lines != []
    ensures var front, last := lines[..|lines| - 1], |lines| - 1;
            forall k :: TimedBy(lines, k, node, expected) <==>
                        TimedBy(front, k, node, expected) || (k == last && TimedBy(lines, last, node, expected))
  {
    hide Canonical;
  }

  lemma {:induction false} UntimedTookNothing(lines: seq<Content>, node: Id, expected: set<Id>)
    ensures (forall k :: !TimedBy(lines, k, node, expected)) ==> Took(lines, node, expected) == 0.0
  {
    hide Canonical;
    if lines != [] {
      UntimedTookNothing(lines[..|lines| - 1], node, expected);
      TimedLater(lines, node, expected);
      if forall k :: !TimedBy(lines, k, node, expected) { assert !TimedBy(lines, |lines| - 1, node, expected); }
    }
  }

  /** How bad a line is: worst a decided answer other than the declared one, then one that decides nothing, then one as
      declared, or that the test does not apply. */
  lemma HowBad(status: Status, expected: Status)
    ensures var decides := status in {Ok, Rejected, NotApplicable};
            && (Badness(Cell(status, expected)) == 0 <==> decides && status != expected && status != NotApplicable)
            && (Badness(Cell(status, expected)) == 1 <==> !decides)
            && (Badness(Cell(status, expected)) == 2 <==> decides && (status == expected || status == NotApplicable))
    ensures Badness(Word("failed")) == 0 && Badness(Word("error")) == 1
    ensures forall w :: w != "failed" && w != "error" ==> Badness(Word(w)) == 2
  {
  }

  /** A reported id is read as collected: itself, or without its trailing group where only what precedes it is known. */
  lemma AsCollected(node: Id, group: string, expected: set<Id>)
    requires '@' !in group
    ensures node in expected ==> Canonical(node, expected) == node
    ensures node + "@" + group !in expected ==>
              Canonical(node + "@" + group, expected) == if node in expected then node else node + "@" + group
    ensures '@' !in node ==> Canonical(node, expected) == node
  {
    LastAtIs(node, group);
    if '@' !in node { NoAt(node); }
    assert (node + "@" + group)[..|node|] == node;
  }

  lemma {:induction false} LastAtIs(node: Id, group: string)
    requires '@' !in group
    ensures LastAt(node + "@" + group) == Some(|node|)
  {
    var whole := node + "@" + group;
    if group != [] {
      var front := group[..|group| - 1];
      assert group == front + [group[|group| - 1]];
      assert whole[..|whole| - 1] == node + "@" + front;
      assert whole[|whole| - 1] == group[|group| - 1] && group[|group| - 1] in group;
      LastAtIs(node, front);
    } else {
      assert whole == node + "@";
    }
  }

  lemma {:induction false} NoAt(node: Id)
    requires '@' !in node
    ensures LastAt(node) == None
  {
    if node != "" {
      NoAt(node[..|node| - 1]);
      assert node[|node| - 1] in node;
    }
  }

  // ----- the lines of a file

  function Untagging(lines: seq<Content>): seq<Raw> {
    if lines == [] then [] else Untagging(lines[..|lines| - 1]) + [Untagged(lines[|lines| - 1])]
  }

  function Tagging(item: int, lines: seq<Content>): seq<Entry> {
    if lines == [] then [] else Tagging(item, lines[..|lines| - 1]) + [Of(item, lines[|lines| - 1])]
  }

  /** A RETIRED SECTION READS AS TAGGED LINES: what follows a section's header is its item's, whatever came before. */
  lemma {:induction false} ASectionReads(before: seq<Raw>, item: int, lines: seq<Content>)
    ensures Entries(before + [Section(item)] + Untagging(lines)) == Entries(before) + Tagging(item, lines)
    ensures SectionAfter(before + [Section(item)] + Untagging(lines)) == Some(item)
  {
    var head := before + [Section(item)];
    if lines == [] {
      assert head + [] == head && head[..|head| - 1] == before;
      assert Entries(before) + [] == Entries(before);
    } else {
      var front, last := lines[..|lines| - 1], lines[|lines| - 1];
      var raws := head + Untagging(lines);
      assert raws[..|raws| - 1] == head + Untagging(front);
      ASectionReads(before, item, front);
      assert Entries(raws) == Entries(head + Untagging(front)) + [Of(item, last)];
    }
  }

  /** A tagged line is its item's wherever it stands; a broken one is nobody's, and so is an untagged one before any
      section. */
  lemma {:induction false} OtherLinesRead(before: seq<Raw>, entry: Entry, content: Content)
    ensures Entries(before + [Tagged(entry)]) == Entries(before) + [entry]
    ensures Entries(before + [Broken]) == Entries(before)
    ensures (forall r :: r in before ==> !r.Section?) ==> Entries(before + [Untagged(content)]) == Entries(before)
  {
    assert (before + [Tagged(entry)])[..|before|] == before;
    assert (before + [Broken])[..|before|] == before;
    assert (before + [Untagged(content)])[..|before|] == before;
    if forall r :: r in before ==> !r.Section? { NoSection(before); }
  }

  lemma {:induction false} NoSection(raws: seq<Raw>)
    requires forall r :: r in raws ==> !r.Section?
    ensures SectionAfter(raws) == None
  {
    if raws != [] {
      assert raws[|raws| - 1] in raws;
      NoSection(raws[..|raws| - 1]);
    }
  }
}
