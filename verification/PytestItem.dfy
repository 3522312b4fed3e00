/**
 The stream of a cluster round: every item appends whole lines to one file, and the gather tells the items apart
 again and reads each one's last attempt.
 */
module PytestItem {
  import opened Options

  type Id = string

  /** The statuses of a test's cell. */
  datatype Status = Ok | Rejected | NotApplicable | Pending | Timeout | OutOfMemory | Unavailable | Infra | Error

  predicate Decided(status: Status) {
    status.Ok? || status.Rejected? || status.NotApplicable?
  }

  /** One phase's line: a cell under its expectation, or the retired word a round in flight may still carry. */
  datatype Plain = Cell(status: Status, expected: Status) | Word(outcome: string)

  /** The lower the worse: a decided answer other than the declared one, then none, then the declared one. */
  function Badness(line: Plain): nat {
    match line
    case Cell(status, expected) =>
      if !Decided(status) then 1
      else if status == expected || status.NotApplicable? then 2
      else 0
    case Word(outcome) =>
      if outcome == "failed" then 0 else if outcome == "error" then 1 else 2
  }

  /** How an item closed: its exit code (below zero when a signal ended it), its wall and its peak memory. */
  datatype Done = Done(code: int, wall: real, peak: Option<real>)

  /** What a stream line says. */
  datatype Content =
    | Begin
    | Report(id: Id, plain: Plain, seconds: Option<real>)
    | Start(id: Id)
    | Close(done: Done)
    | Other

  /** A tagged line of a round's file: an item's line, or the header of a kept round. */
  datatype Entry = Of(item: int, content: Content) | Header(tag: string)

  /** A line of the file as text: a retired section header, no JSON object, or an object tagged or not. */
  datatype Raw =
    | Section(of: int)
    | Broken
    | Tagged(entry: Entry)
    | Untagged(content: Content)

  // ----- tagging

  /** Which item's section is open after `raws`; a line without a tag is of the open one, or of none. */
  function SectionAfter(raws: seq<Raw>): Option<int> {
    if raws == [] then None
    else if raws[|raws| - 1].Section? then Some(raws[|raws| - 1].of)
    else SectionAfter(raws[..|raws| - 1])
  }

  function Entries(raws: seq<Raw>): seq<Entry> {
    if raws == [] then []
    else
      var front, last := raws[..|raws| - 1], raws[|raws| - 1];
      Entries(front) +
      match last
      case Tagged(entry) => [entry]
      case Untagged(content) =>
        if SectionAfter(front).Some? then [Of(SectionAfter(front).value, content)] else []
      case _ => []
  }

  method TagLines(raws: seq<Raw>) returns (entries: seq<Entry>)
    ensures entries == Entries(raws)
  {
    entries := [];
    var section: Option<int> := None;
    for i := 0 to |raws|
      invariant entries == Entries(raws[..i])
      invariant section == SectionAfter(raws[..i])
    {
      assert raws[..i + 1][..i] == raws[..i];
      match raws[i]
      case Section(of) => section := Some(of);
      case Tagged(entry) => entries := entries + [entry];
      case Untagged(content) =>
        if section.Some? { entries := entries + [Of(section.value, content)]; }
      case Broken =>
    }
    assert raws[..|raws|] == raws;
  }

  // ----- telling the items apart

  datatype Demux = Demux(ours: bool, streams: map<int, seq<Content>>)

  function Take(demux: Demux, entry: Entry, tag: string): Demux {
    match entry
    case Header(named) => demux.(ours := named == tag)
    case Of(item, content) =>
      if !demux.ours then demux
      else if content.Begin? then demux.(streams := demux.streams[item := []])
      else
        var before := if item in demux.streams then demux.streams[item] else [];
        demux.(streams := demux.streams[item := before + [content]])
  }

  /** Each item's stream of round `tag` after `entries`, the file starting in that round. */
  function Split(entries: seq<Entry>, tag: string): Demux {
    if entries == [] then Demux(true, map[])
    else Take(Split(entries[..|entries| - 1], tag), entries[|entries| - 1], tag)
  }

  method SplitStreams(raws: seq<Raw>, tag: string) returns (streams: map<int, seq<Content>>)
    ensures streams == Split(Entries(raws), tag).streams
  {
    var entries := TagLines(raws);
    var ours := true;
    streams := map[];
    for i := 0 to |entries|
      invariant Demux(ours, streams) == Split(entries[..i], tag)
    {
      assert entries[..i + 1][..i] == entries[..i];
      match entries[i]
      case Header(named) => ours := named == tag;
      case Of(item, content) =>
        if ours {
          if content.Begin? { streams := streams[item := []]; }
          else {
            streams := streams[item := (if item in streams then streams[item] else []) + [content]];
          }
        }
    }
    assert entries[..|entries|] == entries;
  }

  /** The lines of `item`, in order: what its process wrote, whatever the others wrote between. */
  function LinesOf(entries: seq<Entry>, item: int): seq<Content> {
    if entries == [] then []
    else
      var front, last := entries[..|entries| - 1], entries[|entries| - 1];
      LinesOf(front, item) + if last.Of? && last.item == item then [last.content] else []
  }

  /** The lines after the last begin: an item that was requeued began again. */
  function LastAttempt(lines: seq<Content>): seq<Content> {
    if lines == [] then []
    else if lines[|lines| - 1].Begin? then []
    else LastAttempt(lines[..|lines| - 1]) + [lines[|lines| - 1]]
  }

  predicate NoHeaders(entries: seq<Entry>) {
    forall e :: e in entries ==> e.Of?
  }

  /**
   DEMULTIPLEXING UNDOES INTERLEAVING: however the items' whole lines interleave in a round's file, an item has a
   stream exactly when it wrote a line, and its stream is its own lines after its last begin.
   */
  lemma {:induction false} DemultiplexingUndoesInterleaving(entries: seq<Entry>, tag: string, item: int)
    requires NoHeaders(entries)
    ensures var demux := Split(entries, tag);
            && demux.ours
            && (item in demux.streams <==> LinesOf(entries, item) != [])
            && (item in demux.streams ==> demux.streams[item] == LastAttempt(LinesOf(entries, item)))
  {
    if entries != [] {
      var front, last := entries[..|entries| - 1], entries[|entries| - 1];
      assert last in entries;
      DemultiplexingUndoesInterleaving(front, tag, item);
      var lines := LinesOf(front, item);
      if last.item == item {
        assert (lines + [last.content])[..|lines|] == lines;
        assert lines == [] ==> LastAttempt(lines) == [];
      } else {
        assert lines + [] == lines;
      }
    }
  }

  // ----- what retention keeps of a round

  function ItemLines(entries: seq<Entry>): seq<Entry> {
    if entries == [] then []
    else
      var front, last := entries[..|entries| - 1], entries[|entries| - 1];
      ItemLines(front) + if last.Of? then [last] else []
  }

  /** A round as retention keeps it: a header naming it and its item lines; nothing when nothing was streamed. */
  function KeptText(tag: string, entries: seq<Entry>): seq<Entry> {
    var lines := ItemLines(entries);
    if lines == [] then [] else [Header(tag)] + lines
  }

  datatype Round = Round(tag: string, live: seq<Entry>)

  /** The one kept file of a run: its rounds one after another. */
  function KeptFile(rounds: seq<Round>): seq<Entry> {
    if rounds == [] then []
    else KeptFile(rounds[..|rounds| - 1]) + KeptText(rounds[|rounds| - 1].tag, rounds[|rounds| - 1].live)
  }

  /** A run of item lines after `entries` adds to their streams what it makes on its own, when the round is ours. */
  function Onto(demux: Demux, entries: seq<Entry>, tag: string): Demux {
    if entries == [] then demux
    else Take(Onto(demux, entries[..|entries| - 1], tag), entries[|entries| - 1], tag)
  }

  lemma {:induction false} SplitConcatenates(first: seq<Entry>, second: seq<Entry>, tag: string)
    ensures Split(first + second, tag) == Onto(Split(first, tag), second, tag)
  {
    if second == [] {
      assert first + second == first;
    } else {
      var front := second[..|second| - 1];
      assert (first + second)[..|first + second| - 1] == first + front;
      SplitConcatenates(first, front, tag);
    }
  }

  lemma {:induction false} LinesKeepTheRound(demux: Demux, lines: seq<Entry>, tag: string)
    requires NoHeaders(lines)
    ensures Onto(demux, lines, tag).ours == demux.ours
    ensures !demux.ours ==> Onto(demux, lines, tag) == demux
    ensures demux == Demux(true, map[]) ==> Onto(demux, lines, tag) == Split(lines, tag)
  {
    if lines != [] {
      assert lines[|lines| - 1] in lines;
      LinesKeepTheRound(demux, lines[..|lines| - 1], tag);
    }
  }

  lemma {:induction false} ItemLinesOnly(entries: seq<Entry>)
    ensures NoHeaders(ItemLines(entries))
    ensures NoHeaders(entries) ==> ItemLines(entries) == entries
  {
    if entries != [] {
      ItemLinesOnly(entries[..|entries| - 1]);
      assert NoHeaders(entries) ==> entries[|entries| - 1].Of?;
    }
  }

  /** One kept round read after others: its own streams when the header names `tag`, else nothing new. */
  lemma BlockAdds(demux: Demux, round: Round, tag: string)
    requires NoHeaders(round.live)
    ensures var after := Onto(demux, KeptText(round.tag, round.live), tag);
            if round.live == [] then after == demux
            else if round.tag != tag then !after.ours && after.streams == demux.streams
            else demux.streams == map[] ==> after.streams == Split(round.live, tag).streams
  {
    ItemLinesOnly(round.live);
    if round.live != [] {
      var lines := round.live;
      OntoConcatenates(demux, [Header(round.tag)], lines, tag);
      assert [Header(round.tag)][..0] == [];
      var headed := Onto(demux, [Header(round.tag)], tag);
      assert headed == demux.(ours := round.tag == tag);
      LinesKeepTheRound(headed, lines, tag);
    }
  }

  lemma {:induction false} OntoConcatenates(demux: Demux, first: seq<Entry>, second: seq<Entry>, tag: string)
    ensures Onto(demux, first + second, tag) == Onto(Onto(demux, first, tag), second, tag)
  {
    if second == [] {
      assert first + second == first;
    } else {
      var front := second[..|second| - 1];
      assert (first + second)[..|first + second| - 1] == first + front;
      OntoConcatenates(demux, first, front, tag);
    }
  }

  predicate DistinctTags(rounds: seq<Round>) {
    forall i, j :: 0 <= i < j < |rounds| ==> rounds[i].tag != rounds[j].tag
  }

  lemma {:induction false} KeptFileReads(rounds: seq<Round>, tag: string)
    requires DistinctTags(rounds) && forall r :: r in rounds ==> NoHeaders(r.live)
    ensures (forall r :: r in rounds ==> r.tag != tag) ==> Split(KeptFile(rounds), tag).streams == map[]
    ensures forall r :: r in rounds && r.tag == tag ==>
                          Split(KeptFile(rounds), tag).streams == Split(r.live, tag).streams
  {
    if rounds != [] {
      hide Onto, KeptText;
      var front, last := rounds[..|rounds| - 1], rounds[|rounds| - 1];
      assert last in rounds;
      KeptFileReads(front, tag);
      SplitConcatenates(KeptFile(front), KeptText(last.tag, last.live), tag);
      BlockAdds(Split(KeptFile(front), tag), last, tag);
      forall r | r in rounds && r.tag == tag
        ensures Split(KeptFile(rounds), tag).streams == Split(r.live, tag).streams
      {
        if r != last {
          var i :| 0 <= i < |rounds| && rounds[i] == r;
          assert i != |rounds| - 1;
          assert front[i] == r;
        } else {
          assert forall f :: f in front ==> f.tag != tag;
        }
      }
    }
  }

  /** A ROUND READ BACK FROM THE KEPT FILE is what its live file gives. */
  lemma KeptRoundReadsBack(rounds: seq<Round>, k: nat)
    requires k < |rounds|
    requires DistinctTags(rounds) && forall r :: r in rounds ==> NoHeaders(r.live)
    ensures Split(KeptFile(rounds), rounds[k].tag).streams == Split(rounds[k].live, rounds[k].tag).streams
  {
    KeptFileReads(rounds, rounds[k].tag);
  }

  // ----- reading one item's stream

  /** Where the last `@` of `node` is, if anywhere. */
  function LastAt(node: Id): Option<nat> {
    if node == "" then None
    else if node[|node| - 1] == '@' then Some(|node| - 1)
    else LastAt(node[..|node| - 1])
  }

  /** `node` as collected: a trailing `@group` is dropped when what precedes it is an expected id. */
  function Canonical(node: Id, expected: set<Id>): Id {
    if node in expected then node
    else
      var at := LastAt(node);
      if at.Some? && at.value <= |node| && node[..at.value] in expected then node[..at.value] else node
  }

  datatype Folded = Folded(cells: map<Id, Plain>, seconds: map<Id, real>, done: Option<Done>, started: Option<Id>)

  function TakeLine(folded: Folded, line: Content, expected: set<Id>): Folded {
    match line
    case Close(done) => folded.(done := Some(done))
    case Start(id) => folded.(started := Some(Canonical(id, expected)))
    case Report(id, plain, seconds) =>
      var node := Canonical(id, expected);
      if node !in expected then folded
      else
        var cells := if node !in folded.cells || Badness(plain) < Badness(folded.cells[node])
                     then folded.cells[node := plain] else folded.cells;
        var spent := if node in folded.seconds then folded.seconds[node] else 0.0;
        folded.(cells := cells,
                seconds := if seconds.Some? then folded.seconds[node := spent + seconds.value] else folded.seconds)
    case _ => folded
  }

  function FoldLines(lines: seq<Content>, expected: set<Id>): Folded {
    if lines == [] then Folded(map[], map[], None, None)
    else TakeLine(FoldLines(lines[..|lines| - 1], expected), lines[|lines| - 1], expected)
  }

  method ReadStream(lines: seq<Content>, ids: seq<Id>) returns (folded: Folded)
    ensures folded == FoldLines(lines, set id | id in ids)
  {
    var expected := set id | id in ids;
    folded := Folded(map[], map[], None, None);
    for i := 0 to |lines|
      invariant folded == FoldLines(lines[..i], expected)
    {
      assert lines[..i + 1][..i] == lines[..i];
      folded := TakeLine(folded, lines[i], expected);
    }
    assert lines[..|lines|] == lines;
  }

  /** Line `k` reports `node`. */
  predicate Reports(lines: seq<Content>, k: int, node: Id, expected: set<Id>) {
    0 <= k < |lines| && lines[k].Report? && Canonical(lines[k].id, expected) == node
  }

  /** Line `k` is the first of the worst phases reported for `node`. */
  ghost predicate FirstWorst(lines: seq<Content>, k: int, node: Id, expected: set<Id>) {
    && Reports(lines, k, node, expected)
    && forall j :: Reports(lines, j, node, expected) ==>
                     && Badness(lines[k].plain) <= Badness(lines[j].plain)
                     && (j < k ==> Badness(lines[k].plain) < Badness(lines[j].plain))
  }

  /** EACH ID KEEPS ITS FIRST WORST PHASE; only expected ids have cells, and only reported ids have seconds. */
  lemma {:induction false} KeepsFirstWorstPhase(lines: seq<Content>, expected: set<Id>, node: Id)
    ensures var folded := FoldLines(lines, expected);
            && (node in folded.cells <==> node in expected && exists k :: Reports(lines, k, node, expected))
            && (node in folded.cells ==>
                  exists k :: FirstWorst(lines, k, node, expected) && folded.cells[node] == lines[k].plain)
            && (node in folded.seconds ==> node in folded.cells)
  {
    if lines != [] {
      hide Badness, Canonical;
      var front, last := lines[..|lines| - 1], |lines| - 1;
      KeepsFirstWorstPhase(front, expected, node);
      var before := FoldLines(front, expected);
      OneMoreLine(lines, node, expected);
      if Reports(lines, last, node, expected) && node in expected {
        if node !in before.cells || Badness(lines[last].plain) < Badness(before.cells[node]) {
          assert FirstWorst(lines, last, node, expected);
        }
      }
    }
  }

  /** One more line: the first worst phase of the earlier ones stays so unless the new line is worse. */
  lemma OneMoreLine(lines: seq<Content>, node: Id, expected: set<Id>)
    requires lines != []
    ensures var front, last := lines[..|lines| - 1], |lines| - 1;
            && (forall j :: Reports(front, j, node, expected) <==> Reports(lines, j, node, expected) && j != last)
            && (forall k :: FirstWorst(front, k, node, expected) ==>
                  && lines[k] == front[k]
                  && ((Reports(lines, last, node, expected) && Badness(lines[last].plain) < Badness(lines[k].plain))
                      || FirstWorst(lines, k, node, expected)))
            && (forall j, k :: FirstWorst(front, k, node, expected) && Reports(front, j, node, expected) ==>
                               Badness(front[k].plain) <= Badness(front[j].plain))
  {
    hide Badness, Canonical;
    var front := lines[..|lines| - 1];
    assert forall j :: 0 <= j < |front| ==> lines[j] == front[j];
  }
}
