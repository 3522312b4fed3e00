/**
 What the rounds measured of each test: the time and memory a round teaches, and what an item of tests is asked for
 then. A test that was killed is priced by the limit that killed it.
 */
module Measured {
  import opened Options
  import opened Ordered
  import opened Sums
  import opened PytestItem

  const OOM_GROWTH := 2.0
  const TIMEOUT_GROWTH := 2.0
  const MB_PER_GB := 1024.0

  type Amounts = map<string, real>

  /** An amount nobody recorded is zero. */
  function Get(amounts: Amounts, key: string): (amount: real)
    ensures key !in amounts ==> amount == 0.0
    ensures key in amounts ==> amount == amounts[key]
  {
    if key in amounts then amounts[key] else 0.0
  }

  function Max(a: real, b: real): (m: real)
    ensures m >= a && m >= b && (m == a || m == b)
  {
    if a >= b then a else b
  }

  function Min(a: real, b: real): (m: real)
    ensures m <= a && m <= b && (m == a || m == b)
  {
    if a <= b then a else b
  }

  function OrZero(amount: Option<real>): (known: real)
    ensures amount == Some(known) || (amount.None? && known == 0.0)
  {
    if amount.Some? then amount.value else 0.0
  }

  /** The test file of a node id: what precedes its first `::`. */
  function FileOf(node: Id): string {
    if |node| < 2 then node
    else if node[..2] == "::" then ""
    else [node[0]] + FileOf(node[1..])
  }

  /** The files of `ids`, each once, in first-seen order. */
  function Files(ids: seq<Id>): (files: seq<string>)
    ensures Distinct(files)
    ensures forall n :: n in ids ==> FileOf(n) in files
    ensures ids != [] ==> files != []
  {
    if ids == [] then []
    else
      var front, last := Files(ids[..|ids| - 1]), FileOf(ids[|ids| - 1]);
      assert forall n :: n in ids ==> n in ids[..|ids| - 1] || n == ids[|ids| - 1];
      if last in front then front else front + [last]
  }

  /** Seconds per timed id; `order` lists the ids as they were first timed. */
  datatype Durations = Durations(order: seq<Id>, at: Amounts)

  /** The measurements, and what this round's fold already learned a file peak for or taught a grown floor. */
  datatype Facts = Facts(durations: Durations, floors: Amounts, overheads: Amounts, peaks: Amounts, idPeaks: Amounts,
                         round: set<string>, taught: set<string>)

  function Timed(durations: Durations, ids: seq<Id>, seconds: Amounts): Durations {
    if ids == [] then durations
    else
      var before, n := Timed(durations, ids[..|ids| - 1], seconds), ids[|ids| - 1];
      if n !in seconds then before
      else Durations(if n in before.at then before.order else before.order + [n], before.at[n := seconds[n]])
  }

  function FirstUnfinished(ids: seq<Id>, cells: set<Id>): Option<Id> {
    if ids == [] then None else if ids[0] !in cells then Some(ids[0]) else FirstUnfinished(ids[1..], cells)
  }

  function Unfinished(ids: seq<Id>, cells: set<Id>): seq<Id> {
    if ids == [] then []
    else Unfinished(ids[..|ids| - 1], cells) + if ids[|ids| - 1] in cells then [] else [ids[|ids| - 1]]
  }

  /** `amounts` with each of `keys` set to what `value` says. */
  function SetEach(amounts: Amounts, keys: seq<string>, value: string -> real): (r: Amounts)
    ensures forall k :: k in r <==> k in amounts || k in keys
    ensures forall k :: k in r ==> r[k] == if k in keys then value(k) else amounts[k]
  {
    if keys == [] then amounts
    else
      var last := keys[|keys| - 1];
      assert forall k :: k in keys <==> k in keys[..|keys| - 1] || k == last;
      SetEach(amounts, keys[..|keys| - 1], value)[last := value(last)]
  }

  predicate Signalled(folded: Folded) {
    folded.done.Some? && folded.done.value.code < 0
  }

  // ----- lessons

  /** A kill teaches its need to the id it interrupted, and to the file of an item of one file; needs only rise. */
  function KilledPeak(facts: Facts, ids: seq<Id>, cells: set<Id>, files: seq<string>, need: real): Facts {
    var cut := FirstUnfinished(ids, cells);
    var first := if |files| == 1
                 then facts.(peaks := facts.peaks[files[0] := Max(Get(facts.peaks, files[0]), need)],
                             round := facts.round + {files[0]}, taught := facts.taught + {files[0]})
                 else facts;
    if cut.None? then first
    else first.(idPeaks := first.idPeaks[cut.value := Max(Get(first.idPeaks, cut.value), need)],
                taught := first.taught + {cut.value})
  }

  function Const(amount: real): string -> real {
    k => amount
  }

  /** Within a round a file's peak is the worst of its items; a new round's first read replaces the old one. */
  function WorstPeak(facts: Facts, peak: real): string -> real {
    f => Max(if f in facts.round then Get(facts.peaks, f) else 0.0, peak)
  }

  /** A finished id's time is known and its floors are dropped. */
  function Finished(facts: Facts, ids: seq<Id>, folded: Folded): Facts {
    facts.(durations := Timed(facts.durations, ids, folded.seconds),
           floors := facts.floors - folded.seconds.Keys,
           idPeaks := facts.idPeaks - folded.seconds.Keys)
  }

  function Spent(seconds: Amounts): Id -> real {
    n => Get(seconds, n)
  }

  /** Take one item's folded stream; `allowed` is the peak its limit allowed when Slurm said OUT_OF_MEMORY. */
  function Learn(facts: Facts, ids: seq<Id>, folded: Folded, allowed: Option<real>): Facts {
    var timed := Finished(facts, ids, folded);
    if folded.done.None? || ids == [] then timed
    else
      var done, files := folded.done.value, Files(ids);
      if Signalled(folded) then
        var known := Max(OrZero(done.peak), OrZero(allowed));
        if known > 0.0 then KilledPeak(timed, ids, folded.cells.Keys, files, known * OOM_GROWTH) else timed
      else
        var share := Max(0.0, done.wall - Sum(ids, Spent(folded.seconds))) / |files| as real;
        var closed := timed.(overheads := SetEach(timed.overheads, files, Const(share)));
        if done.peak.None? then closed
        else closed.(peaks := SetEach(closed.peaks, files, WorstPeak(closed, done.peak.value)),
                     round := closed.round + set f | f in files)
  }

  /** Each timed id of `file`, in the order they were first timed. */
  function Mates(durations: Durations, order: seq<Id>, file: string): seq<real> {
    if order == [] then []
    else
      var n := order[|order| - 1];
      Mates(durations, order[..|order| - 1], file) + if FileOf(n) == file then [Get(durations.at, n)] else []
  }

  function Mean(durations: Durations, file: string): real {
    var mates := Mates(durations, durations.order, file);
    if mates == [] then 0.0 else Sum(mates, Itself()) / |mates| as real
  }

  /** What an id is priced at: its own duration, else its file's mean, and at least its floor. */
  function Price(facts: Facts): Id -> real {
    n => Max(if n in facts.durations.at then facts.durations.at[n] else Mean(facts.durations, FileOf(n)),
             Get(facts.floors, n))
  }

  function Raised(price: Id -> real, more: real): Id -> real {
    n => price(n) + more
  }

  /** Raise the floors of a timed-out item's unfinished ids until they price at least `target`. */
  function Outgrow(facts: Facts, rest: seq<Id>, target: real): Facts {
    var short := target - Sum(rest, Price(facts));
    if short <= 0.0 || rest == [] then facts
    else
      facts.(floors := SetEach(facts.floors, rest, Raised(Price(facts), short / |rest| as real)))
  }

  function Overheads(facts: Facts): string -> real {
    f => Get(facts.overheads, f)
  }

  /** An item killed after `spent` seconds: the id it cut ran for what the rest does not explain. */
  function Killed(facts: Facts, ids: seq<Id>, folded: Folded, spent: real, timedOut: bool, top: Option<real>): Facts {
    var rest := Unfinished(ids, folded.cells.Keys);
    if rest == [] || spent <= 0.0 then facts
    else
      var explained := Sum(ids, Spent(folded.seconds)) + Sum(Files(ids), Overheads(facts));
      var grown := (spent - explained) * if timedOut || Signalled(folded) then TIMEOUT_GROWTH else 1.0;
      var floor := if top.Some? then Min(grown, top.value) else grown;
      var floored := if floor > 0.0
                     then facts.(floors := facts.floors[rest[0] := Max(Get(facts.floors, rest[0]), floor)])
                     else facts;
      if !timedOut then floored else Outgrow(floored, rest, Target(spent, top))
  }

  /** The wall a timed-out item's unfinished ids must price at together. */
  function Target(spent: real, top: Option<real>): (target: real)
    ensures target <= 2.0 * spent && (top.Some? ==> target <= top.value)
    ensures target == 2.0 * spent || top == Some(target)
  {
    if top.Some? then Min(spent * TIMEOUT_GROWTH, top.value) else spent * TIMEOUT_GROWTH
  }

  // ----- what an item asks

  function IdsOf(ids: seq<Id>, file: string): seq<Id> {
    if ids == [] then []
    else IdsOf(ids[..|ids| - 1], file) + if FileOf(ids[|ids| - 1]) == file then [ids[|ids| - 1]] else []
  }

  function Floors(facts: Facts): Id -> real {
    n => Get(facts.floors, n)
  }

  /** One file of an item: its overhead and its ids, or the declared cost when nothing of it is measured. */
  function FileSeconds(facts: Facts, ids: seq<Id>, cost: real): string -> real {
    (file: string) =>
      var nodes := IdsOf(ids, file);
      if Mates(facts.durations, facts.durations.order, file) == [] && file !in facts.overheads
      then Max(cost, Sum(nodes, Floors(facts)))
      else Get(facts.overheads, file) + Sum(nodes, Price(facts))
  }

  function Seconds(facts: Facts, ids: seq<Id>, cost: real): real {
    Sum(Files(ids), FileSeconds(facts, ids, cost))
  }

  /** What one id needs: its file's peak (learned or prior) or its own floor, at least `least`, times its growth. */
  function Need(facts: Facts, prior: string -> real, least: real, grown: Amounts, node: Id): real {
    var file := FileOf(node);
    var known := if file in facts.peaks then facts.peaks[file] else prior(file);
    Max(Max(known, Get(facts.idPeaks, node)), least) * (if node in grown then grown[node] else 1.0)
  }

  /** Each file of `ids` at its worst id. */
  function FilePeaks(facts: Facts, ids: seq<Id>, prior: string -> real, least: real, grown: Amounts): Amounts {
    if ids == [] then map[]
    else
      var before, n := FilePeaks(facts, ids[..|ids| - 1], prior, least, grown), ids[|ids| - 1];
      before[FileOf(n) := Max(Get(before, FileOf(n)), Need(facts, prior, least, grown, n))]
  }

  /** The distinct peaks of `files`, lightest first. */
  function DistinctPeaks(peaks: Amounts, files: seq<string>): (r: seq<real>)
    ensures Ascending(r)
    ensures forall f :: f in files ==> Get(peaks, f) in r
    ensures files != [] ==> r != []
  {
    if files == [] then []
    else
      var front := DistinctPeaks(peaks, files[..|files| - 1]);
      assert forall f :: f in files ==> f in files[..|files| - 1] || f == files[|files| - 1];
      Insert(Get(peaks, files[|files| - 1]), front)
  }

  function OverBase(base: real): real -> real {
    p => p - base
  }

  /** The worst peak, and every other distinct peak's growth over the lightest. */
  function Accumulated(peaks: seq<real>): real {
    if peaks == [] then 0.0
    else peaks[|peaks| - 1] + Sum(peaks[..|peaks| - 1], OverBase(peaks[0]))
  }

  function TaskGb(peakGb: real, prior: real, safety: real): real {
    Max(peakGb * safety, prior)
  }

  /** One item's ask in GB: one process over all its files, so the files accumulate. */
  function ItemGb(facts: Facts, ids: seq<Id>, prior: string -> real, memGb: real, safety: real, grown: Amounts): real
    requires safety > 0.0
  {
    var least := memGb * MB_PER_GB / safety;
    var peaks := DistinctPeaks(FilePeaks(facts, ids, prior, least, grown), Files(ids));
    TaskGb(Accumulated(peaks) / MB_PER_GB, memGb, safety)
  }

  // ----- the table itself

  method AssignEach(amounts: Amounts, keys: seq<string>, value: string -> real) returns (r: Amounts)
    ensures r == SetEach(amounts, keys, value)
  {
    r := amounts;
    for i := 0 to |keys|
      invariant r == SetEach(amounts, keys[..i], value)
    {
      assert keys[..i + 1][..i] == keys[..i];
      r := r[keys[i] := value(keys[i])];
    }
    assert keys[..|keys|] == keys;
  }

  /** The measurements as the object a round's fold updates in place. */
  class Table {
    var durations: Durations
    var floors: Amounts
    var overheads: Amounts
    var peaks: Amounts
    var idPeaks: Amounts
    var round: set<string>
    var taught: set<string>

    function Contents(): Facts
      reads this
    {
      Facts(durations, floors, overheads, peaks, idPeaks, round, taught)
    }

    /** A new round's fold starts from the record: its facts, and nothing taught yet. */
    constructor (record: Facts)
      ensures Contents() == record.(round := {}, taught := {})
    {
      durations, floors, overheads := record.durations, record.floors, record.overheads;
      peaks, idPeaks := record.peaks, record.idPeaks;
      round, taught := {}, {};
    }

    method TeachKill(ids: seq<Id>, cells: set<Id>, files: seq<string>, need: real)
      modifies this
      ensures Contents() == KilledPeak(old(Contents()), ids, cells, files, need)
    {
      if |files| == 1 {
        peaks := peaks[files[0] := Max(Get(peaks, files[0]), need)];
        round, taught := round + {files[0]}, taught + {files[0]};
      }
      var cut := FirstUnfinished(ids, cells);
      if cut.Some? {
        idPeaks := idPeaks[cut.value := Max(Get(idPeaks, cut.value), need)];
        taught := taught + {cut.value};
      }
    }

    method LearnItem(ids: seq<Id>, folded: Folded, allowed: Option<real>)
      modifies this
      ensures Contents() == Learn(old(Contents()), ids, folded, allowed)
    {
      hide SetEach, KilledPeak, Timed, Sum, Files;
      durations := Timed(durations, ids, folded.seconds);
      floors, idPeaks := floors - folded.seconds.Keys, idPeaks - folded.seconds.Keys;
      if folded.done.None? || ids == [] { return; }
      var done, files := folded.done.value, Files(ids);
      if Signalled(folded) {
        var known := Max(OrZero(done.peak), OrZero(allowed));
        if known > 0.0 { TeachKill(ids, folded.cells.Keys, files, known * OOM_GROWTH); }
        return;
      }
      var share := Max(0.0, done.wall - Sum(ids, Spent(folded.seconds))) / |files| as real;
      overheads := AssignEach(overheads, files, Const(share));
      if done.peak.Some? {
        peaks := AssignEach(peaks, files, WorstPeak(Contents(), done.peak.value));
        round := round + set f | f in files;
      }
    }

    method OutgrowRest(rest: seq<Id>, target: real)
      requires rest != []
      modifies this`floors
      ensures Contents() == Outgrow(old(Contents()), rest, target)
    {
      hide Price, Raised, Sum, SetEach;
      var prices := Price(Contents());
      var short := target - Sum(rest, prices);
      if short <= 0.0 { return; }
      floors := AssignEach(floors, rest, Raised(prices, short / |rest| as real));
    }

    method PriceKilled(ids: seq<Id>, folded: Folded, spent: real, timedOut: bool, top: Option<real>)
      modifies this`floors
      ensures Contents() == Killed(old(Contents()), ids, folded, spent, timedOut, top)
    {
      hide Outgrow, Sum, Price, Files, Unfinished;
      var rest := Unfinished(ids, folded.cells.Keys);
      if rest == [] || spent <= 0.0 { return; }
      var explained := Sum(ids, Spent(folded.seconds)) + Sum(Files(ids), Overheads(Contents()));
      var grown := (spent - explained) * if timedOut || Signalled(folded) then TIMEOUT_GROWTH else 1.0;
      var floor := if top.Some? then Min(grown, top.value) else grown;
      if floor > 0.0 { floors := floors[rest[0] := Max(Get(floors, rest[0]), floor)]; }
      if timedOut { OutgrowRest(rest, Target(spent, top)); }
    }
  }

  // ----- a kill is never re-priced below itself

  predicate GrowsOnly(grown: Amounts) {
    forall n :: n in grown ==> grown[n] >= 1.0
  }

  lemma Scaled(x: real, factor: real)
    requires x >= 0.0 && factor >= 1.0
    ensures x * factor >= x
  {
    assert x * (factor - 1.0) >= 0.0;
  }

  lemma NeedIsAFloor(facts: Facts, prior: string -> real, least: real, grown: Amounts, node: Id)
    requires GrowsOnly(grown) && least >= 0.0
    ensures Need(facts, prior, least, grown, node) >= Get(facts.idPeaks, node)
  {
    hide FileOf;
    var file := FileOf(node);
    var known := if file in facts.peaks then facts.peaks[file] else prior(file);
    Scaled(Max(Max(known, Get(facts.idPeaks, node)), least), if node in grown then grown[node] else 1.0);
  }

  lemma {:induction false} WorstIdOfItsFile(facts: Facts, ids: seq<Id>, prior: string -> real, least: real,
                                            grown: Amounts, node: Id)
    requires node in ids
    ensures Get(FilePeaks(facts, ids, prior, least, grown), FileOf(node)) >= Need(facts, prior, least, grown, node)
  {
    hide FileOf, Need;
    var front, last := ids[..|ids| - 1], ids[|ids| - 1];
    if node != last {
      assert node in front;
      WorstIdOfItsFile(facts, front, prior, least, grown, node);
    }
  }

  lemma {:induction false} OverBaseIsMore(peaks: seq<real>, base: real)
    requires forall i :: 0 <= i < |peaks| ==> peaks[i] >= base
    ensures Sum(peaks, OverBase(base)) >= 0.0
  {
    if peaks != [] {
      OverBaseIsMore(peaks[..|peaks| - 1], base);
    }
  }

  lemma AccumulatedIsWorst(peaks: seq<real>, peak: real)
    requires Ascending(peaks) && peak in peaks
    ensures Accumulated(peaks) >= peak
  {
    var front := peaks[..|peaks| - 1];
    assert forall i :: 0 <= i < |front| ==> front[i] >= peaks[0];
    OverBaseIsMore(front, peaks[0]);
  }

  /** An item asks at least what each of its ids needs, its growth included, times the safety. */
  lemma ItemAsksItsNeeds(facts: Facts, ids: seq<Id>, prior: string -> real, memGb: real, safety: real, grown: Amounts,
                         node: Id)
    requires node in ids && safety > 0.0
    ensures var need := Need(facts, prior, memGb * MB_PER_GB / safety, grown, node);
            ItemGb(facts, ids, prior, memGb, safety, grown) >= need / MB_PER_GB * safety
  {
    hide FilePeaks, DistinctPeaks, Accumulated, FileOf, Need;
    var least := memGb * MB_PER_GB / safety;
    var peaks := FilePeaks(facts, ids, prior, least, grown);
    var need := Need(facts, prior, least, grown, node);
    WorstIdOfItsFile(facts, ids, prior, least, grown, node);
    AccumulatedIsWorst(DistinctPeaks(peaks, Files(ids)), Get(peaks, FileOf(node)));
    var held := Accumulated(DistinctPeaks(peaks, Files(ids)));
    InGb(need, held, safety);
  }

  /** Conversion and padding keep the order of amounts. */
  lemma InGb(less: real, more: real, safety: real)
    requires safety > 0.0
    ensures less <= more <==> less / MB_PER_GB * safety <= more / MB_PER_GB * safety
  {
    var apart := more / MB_PER_GB - less / MB_PER_GB;
    assert apart >= 0.0 <==> more >= less;
    assert apart * safety == more / MB_PER_GB * safety - less / MB_PER_GB * safety;
    assert apart >= 0.0 ==> apart * safety >= 0.0;
    assert apart < 0.0 ==> apart * safety < 0.0;
  }

  /** And so at least each of their known floors. */
  lemma ItemAsksItsFloors(facts: Facts, ids: seq<Id>, prior: string -> real, memGb: real, safety: real, grown: Amounts,
                          node: Id)
    requires node in ids && GrowsOnly(grown) && memGb >= 0.0 && safety > 0.0
    ensures ItemGb(facts, ids, prior, memGb, safety, grown) >= Get(facts.idPeaks, node) / MB_PER_GB * safety
  {
    hide ItemGb, Need;
    var least := memGb * MB_PER_GB / safety;
    ItemAsksItsNeeds(facts, ids, prior, memGb, safety, grown, node);
    NeedIsAFloor(facts, prior, least, grown, node);
    InGb(Get(facts.idPeaks, node), Need(facts, prior, least, grown, node), safety);
  }

  /** What a round teaches, item by item: an item folded, then priced by how long it ran if it did not close. */
  datatype Lesson =
    | Learns(ids: seq<Id>, folded: Folded, allowed: Option<real>)
    | Dies(ids: seq<Id>, folded: Folded, spent: real, timedOut: bool, top: Option<real>)
    | NextRound

  function Taught(facts: Facts, lesson: Lesson): Facts {
    match lesson
    case Learns(ids, folded, allowed) => Learn(facts, ids, folded, allowed)
    case Dies(ids, folded, spent, timedOut, top) => Killed(facts, ids, folded, spent, timedOut, top)
    case NextRound => facts.(round := {}, taught := {})
  }

  function TaughtAll(facts: Facts, lessons: seq<Lesson>): Facts {
    if lessons == [] then facts else Taught(TaughtAll(facts, lessons[..|lessons| - 1]), lessons[|lessons| - 1])
  }

  predicate StillUnfinished(lessons: seq<Lesson>, node: Id) {
    forall l :: l in lessons && l.Learns? ==> node !in l.folded.seconds
  }

  lemma {:induction false} OutgrowTeachesTime(facts: Facts, ids: seq<Id>, folded: Folded, spent: real, timedOut: bool,
                                              top: Option<real>)
    ensures Killed(facts, ids, folded, spent, timedOut, top).idPeaks == facts.idPeaks
  {
    hide Price, Sum, Files, Unfinished;
  }

  lemma LearnNeverLowers(facts: Facts, ids: seq<Id>, folded: Folded, allowed: Option<real>, node: Id)
    requires node !in folded.seconds
    ensures Get(Learn(facts, ids, folded, allowed).idPeaks, node) >= Get(facts.idPeaks, node)
  {
    hide Sum, Files, Timed, SetEach, KilledPeak;
    var timed := Finished(facts, ids, folded);
    assert Get(timed.idPeaks, node) == Get(facts.idPeaks, node);
    var need := Max(OrZero(if folded.done.Some? then folded.done.value.peak else None), OrZero(allowed)) * OOM_GROWTH;
    KilledPeakNeverLowers(timed, ids, folded.cells.Keys, Files(ids), need, node);
  }

  lemma KilledPeakNeverLowers(facts: Facts, ids: seq<Id>, cells: set<Id>, files: seq<string>, need: real, node: Id)
    ensures Get(KilledPeak(facts, ids, cells, files, need).idPeaks, node) >= Get(facts.idPeaks, node)
  {
    hide FirstUnfinished;
  }

  lemma LessonNeverLowers(facts: Facts, lesson: Lesson, node: Id)
    requires lesson.Learns? ==> node !in lesson.folded.seconds
    ensures Get(Taught(facts, lesson).idPeaks, node) >= Get(facts.idPeaks, node)
  {
    hide Learn, Killed;
    match lesson
    case Learns(ids, folded, allowed) => LearnNeverLowers(facts, ids, folded, allowed, node);
    case Dies(ids, folded, spent, timedOut, top) => OutgrowTeachesTime(facts, ids, folded, spent, timedOut, top);
    case NextRound =>
  }

  /** Nothing but its own finish lowers an id's memory floor. */
  lemma {:induction false} FloorOutlives(facts: Facts, lessons: seq<Lesson>, node: Id)
    requires StillUnfinished(lessons, node)
    ensures Get(TaughtAll(facts, lessons).idPeaks, node) >= Get(facts.idPeaks, node)
  {
    if lessons != [] {
      hide Taught;
      var front, last := lessons[..|lessons| - 1], lessons[|lessons| - 1];
      assert last in lessons;
      FloorOutlives(facts, front, node);
      LessonNeverLowers(TaughtAll(facts, front), last, node);
    }
  }

  /** A signalled item's cut id is floored at what its limit allowed, grown. */
  lemma KillIsTaught(facts: Facts, ids: seq<Id>, folded: Folded, allowed: real, node: Id)
    requires Signalled(folded) && FirstUnfinished(ids, folded.cells.Keys) == Some(node) && allowed > 0.0
    ensures Get(Learn(facts, ids, folded, Some(allowed)).idPeaks, node) >= allowed * OOM_GROWTH
  {
    hide Sum, Files, Timed;
  }

  /**
   AN OUT-OF-MEMORY KILL IS NEVER RE-PRICED BELOW ITSELF: an item signalled at the limit `limitMb` cut `node`; in
   every later round until that id finishes, any item holding it asks at least OOM_GROWTH times that limit.
   */
  lemma KillNeverCheaper(facts: Facts, ids: seq<Id>, folded: Folded, limitMb: real, node: Id, later: seq<Lesson>,
                         holding: seq<Id>, prior: string -> real, memGb: real, safety: real, grown: Amounts)
    requires Signalled(folded) && FirstUnfinished(ids, folded.cells.Keys) == Some(node) && limitMb > 0.0
    requires StillUnfinished(later, node) && node in holding
    requires GrowsOnly(grown) && memGb >= 0.0 && safety > 0.0
    ensures var learnt := Learn(facts, ids, folded, Some(limitMb / safety));
            ItemGb(TaughtAll(learnt, later), holding, prior, memGb, safety, grown) >= OOM_GROWTH * (limitMb / MB_PER_GB)
  {
    hide ItemGb, Learn, TaughtAll, FirstUnfinished;
    var allowed := limitMb / safety;
    var now := Learn(facts, ids, folded, Some(allowed));
    KillIsTaught(facts, ids, folded, allowed, node);
    FloorOutlives(now, later, node);
    ItemAsksItsFloors(TaughtAll(now, later), holding, prior, memGb, safety, grown, node);
    PadAndUnpad(Get(TaughtAll(now, later).idPeaks, node), limitMb, safety);
  }

  lemma PadAndUnpad(floor: real, limitMb: real, safety: real)
    requires safety > 0.0 && floor >= limitMb / safety * OOM_GROWTH
    ensures floor / MB_PER_GB * safety >= OOM_GROWTH * (limitMb / MB_PER_GB)
  {
    var least := limitMb / safety * OOM_GROWTH;
    assert limitMb / safety * safety == limitMb;
    assert (floor - least) * safety >= 0.0;
    assert floor * safety >= least * safety == limitMb * OOM_GROWTH;
    assert floor / MB_PER_GB * safety == floor * safety / MB_PER_GB;
  }

  // ----- a wall kill prices the whole item

  lemma {:induction false} SumRaised(rest: seq<Id>, price: Id -> real, more: real)
    ensures Sum(rest, Raised(price, more)) == Sum(rest, price) + more * |rest| as real
  {
    if rest != [] {
      SumRaised(rest[..|rest| - 1], price, more);
    }
  }

  lemma {:induction false} SumSame(xs: seq<Id>, g: Id -> real, h: Id -> real)
    requires forall x :: x in xs ==> g(x) == h(x)
    ensures Sum(xs, g) == Sum(xs, h)
  {
    if xs != [] {
      assert xs[|xs| - 1] in xs;
      SumSame(xs[..|xs| - 1], g, h);
    }
  }

  lemma SharesSumBack(whole: real, parts: nat)
    requires parts > 0
    ensures whole / parts as real * parts as real == whole
    ensures whole >= 0.0 ==> whole / parts as real >= 0.0
  {
  }

  /** After outgrowing, the unfinished ids price at least the target together. */
  lemma OutgrownPrice(facts: Facts, rest: seq<Id>, target: real)
    requires rest != []
    ensures Sum(rest, Price(Outgrow(facts, rest, target))) >= target
  {
    hide Price, Sum, Outgrow;
    OutgrownExactly(facts, rest, target);
  }

  lemma {:induction false} IdsOfIsClass(ids: seq<Id>, file: string, g: Id -> real)
    ensures Sum(IdsOf(ids, file), g) == SumIn(ids, FileOf, file, g)
  {
    if ids != [] {
      hide FileOf;
      IdsOfIsClass(ids[..|ids| - 1], file, g);
      var before := IdsOf(ids[..|ids| - 1], file);
      assert (before + [ids[|ids| - 1]])[..|before|] == before;
      assert before + [] == before;
    }
  }

  lemma {:induction false} SumOverFiles(files: seq<string>, ids: seq<Id>, price: Id -> real, cost: string -> real)
    requires forall f :: f in files ==> cost(f) >= Sum(IdsOf(ids, f), price)
    ensures Sum(files, cost) >= SumOver(files, ids, FileOf, price)
  {
    if files != [] {
      hide FileOf, IdsOf;
      assert files[|files| - 1] in files;
      SumOverFiles(files[..|files| - 1], ids, price, cost);
      IdsOfIsClass(ids, files[|files| - 1], price);
    }
  }

  lemma {:induction false} MatesMember(durations: Durations, order: seq<Id>, node: Id)
    requires node in order
    ensures Mates(durations, order, FileOf(node)) != []
  {
    hide FileOf;
    if node != order[|order| - 1] {
      MatesMember(durations, order[..|order| - 1], node);
    }
  }

  lemma {:induction false} IdsOfFile(ids: seq<Id>, file: string)
    ensures forall n :: n in IdsOf(ids, file) ==> FileOf(n) == file && n in ids
  {
    hide FileOf;
    if ids != [] {
      IdsOfFile(ids[..|ids| - 1], file);
    }
  }

  predicate WellFormed(facts: Facts) {
    && (forall n :: n in facts.durations.at ==> n in facts.durations.order)
    && (forall n :: n in facts.floors ==> facts.floors[n] >= 0.0)
    && (forall f :: f in facts.overheads ==> facts.overheads[f] >= 0.0)
  }

  /** Every file costs an item at least the prices of its ids. */
  lemma FileCostsItsIds(facts: Facts, ids: seq<Id>, cost: real, file: string)
    requires WellFormed(facts)
    ensures FileSeconds(facts, ids, cost)(file) >= Sum(IdsOf(ids, file), Price(facts))
  {
    hide IdsOf, FileOf;
    if Mates(facts.durations, facts.durations.order, file) == [] && file !in facts.overheads {
      IdsOfFile(ids, file);
      forall n | n in IdsOf(ids, file)
        ensures Price(facts)(n) == Floors(facts)(n)
      {
        if n in facts.durations.at { MatesMember(facts.durations, facts.durations.order, n); }
      }
      SumSame(IdsOf(ids, file), Price(facts), Floors(facts));
    }
  }

  lemma SecondsAtLeastPrices(facts: Facts, ids: seq<Id>, cost: real)
    requires WellFormed(facts)
    ensures Seconds(facts, ids, cost) >= Sum(ids, Price(facts))
  {
    hide FileSeconds, FileOf, Files;
    forall f | f in Files(ids) {
      FileCostsItsIds(facts, ids, cost, f);
    }
    SumOverFiles(Files(ids), ids, Price(facts), FileSeconds(facts, ids, cost));
    DoubleCounting(Files(ids), ids, FileOf, Price(facts));
  }

  lemma OutgrowIsWellFormed(facts: Facts, rest: seq<Id>, target: real)
    requires WellFormed(facts)
    ensures WellFormed(Outgrow(facts, rest, target))
  {
    hide Price, Sum, Raised;
    var short := target - Sum(rest, Price(facts));
    if short > 0.0 && rest != [] {
      SharesSumBack(short, |rest|);
      RaisedIsPositive(facts, short / |rest| as real);
    }
  }

  lemma RaisedIsPositive(facts: Facts, more: real)
    requires WellFormed(facts) && more >= 0.0
    ensures forall n :: Raised(Price(facts), more)(n) >= 0.0
  {
    hide Mean, FileOf;
    assert forall n :: Price(facts)(n) >= Get(facts.floors, n) >= 0.0;
  }

  /**
   A WALL KILL PRICES THE ITEM: right after an item was cut by its wall after `spent` seconds, its unfinished ids
   together estimate at least twice that, held to the longest wall any partition grants.
   */
  lemma WallKillPricesTheItem(facts: Facts, ids: seq<Id>, folded: Folded, spent: real, top: Option<real>, cost: real)
    requires WellFormed(facts) && spent > 0.0
    requires top.Some? ==> top.value >= 0.0
    requires Unfinished(ids, folded.cells.Keys) != []
    ensures var rest := Unfinished(ids, folded.cells.Keys);
            Seconds(Killed(facts, ids, folded, spent, true, top), rest, cost) >= Target(spent, top)
  {
    hide Seconds, Price, Outgrow, Unfinished, Files, Sum, Overheads, Spent;
    var rest := Unfinished(ids, folded.cells.Keys);
    var after := Killed(facts, ids, folded, spent, true, top);
    var explained := Sum(ids, Spent(folded.seconds)) + Sum(Files(ids), Overheads(facts));
    var grown := (spent - explained) * TIMEOUT_GROWTH;
    var floor := if top.Some? then Min(grown, top.value) else grown;
    var floored := if floor > 0.0
                   then facts.(floors := facts.floors[rest[0] := Max(Get(facts.floors, rest[0]), floor)]) else facts;
    assert after == Outgrow(floored, rest, Target(spent, top));
    OutgrownPrice(floored, rest, Target(spent, top));
    OutgrowIsWellFormed(floored, rest, Target(spent, top));
    SecondsAtLeastPrices(after, rest, cost);
  }

  // ----- who carries what a kill cost

  /** What the finished tests and the files' overheads do not explain of the time an item ran. */
  function Unexplained(facts: Facts, ids: seq<Id>, folded: Folded, spent: real): real {
    spent - Sum(ids, Spent(folded.seconds)) - Sum(Files(ids), Overheads(facts))
  }

  /** The least time the interrupted id is priced at from now on: what is unexplained, doubled where the wall or a
      signal ended it, held to the longest wall. */
  function CutFloor(facts: Facts, ids: seq<Id>, folded: Folded, spent: real, timedOut: bool, top: Option<real>): real {
    var ended := timedOut || (folded.done.Some? && folded.done.value.code < 0);
    var least := if ended then 2.0 * Unexplained(facts, ids, folded, spent) else Unexplained(facts, ids, folded, spent);
    if top.Some? && top.value < least then top.value else least
  }

  lemma {:induction false} FirstUnfinishedIs(ids: seq<Id>, cells: set<Id>)
    ensures Unfinished(ids, cells) == [] <==> FirstUnfinished(ids, cells).None?
    ensures Unfinished(ids, cells) != [] ==> FirstUnfinished(ids, cells) == Some(Unfinished(ids, cells)[0])
  {
    if ids != [] {
      var front, last := ids[..|ids| - 1], ids[|ids| - 1];
      FirstUnfinishedIs(front, cells);
      FirstUnfinishedGrows(front, last, cells);
      assert ids == front + [last];
    }
  }

  lemma {:induction false} FirstUnfinishedGrows(ids: seq<Id>, last: Id, cells: set<Id>)
    ensures FirstUnfinished(ids + [last], cells) ==
            if FirstUnfinished(ids, cells).Some? then FirstUnfinished(ids, cells)
            else if last in cells then None else Some(last)
  {
    if ids == [] {
      assert [] + [last] == [last];
    } else {
      FirstUnfinishedGrows(ids[1..], last, cells);
      assert (ids + [last])[1..] == ids[1..] + [last];
    }
  }

  /** Outgrowing lowers no floor, and touches only the ids it is for. */
  lemma OutgrowOnlyRaises(facts: Facts, rest: seq<Id>, target: real)
    ensures forall n :: Get(Outgrow(facts, rest, target).floors, n) >= Get(facts.floors, n)
    ensures forall n :: n !in rest ==> Get(Outgrow(facts, rest, target).floors, n) == Get(facts.floors, n)
  {
    hide Sum, Price, Raised, SetEach;
    var short := target - Sum(rest, Price(facts));
    if short > 0.0 && rest != [] {
      SharesSumBack(short, |rest|);
      RaisedAbove(facts, short / |rest| as real);
    }
  }

  lemma RaisedAbove(facts: Facts, more: real)
    requires more >= 0.0
    ensures forall n :: Raised(Price(facts), more)(n) >= Get(facts.floors, n)
  {
    hide Mean, FileOf;
  }

  /**
   THE ID A KILL CUT CARRIES WHAT IT COST: the first id without a cell has a floor of at least what the rest of the item
   does not explain, doubled where the wall or a signal ended it and held to the longest wall. No floor falls, only ids
   without a cell get one, and where the wall did not end it nothing but that one floor changes.
   */
  lemma KillFloorsTheCut(facts: Facts, ids: seq<Id>, folded: Folded, spent: real, timedOut: bool, top: Option<real>)
    requires spent > 0.0 && FirstUnfinished(ids, folded.cells.Keys).Some?
    ensures var cut := FirstUnfinished(ids, folded.cells.Keys).value;
            var least := CutFloor(facts, ids, folded, spent, timedOut, top);
            var after := Killed(facts, ids, folded, spent, timedOut, top);
            && (least > 0.0 ==> Get(after.floors, cut) >= least)
            && (forall n :: Get(after.floors, n) >= Get(facts.floors, n))
            && (forall n :: n !in Unfinished(ids, folded.cells.Keys) ==> Get(after.floors, n) == Get(facts.floors, n))
            && (!timedOut ==>
                  && Get(after.floors, cut) == (if least > 0.0 then Max(Get(facts.floors, cut), least)
                                                else Get(facts.floors, cut))
                  && forall n :: n != cut ==> Get(after.floors, n) == Get(facts.floors, n))
            && after == facts.(floors := after.floors)
  {
    FirstUnfinishedIs(ids, folded.cells.Keys);
    hide Sum, Files, Overheads, Spent, Outgrow, Unfinished, FirstUnfinished;
    var rest := Unfinished(ids, folded.cells.Keys);
    var least := CutFloor(facts, ids, folded, spent, timedOut, top);
    var floored := if least > 0.0
                   then facts.(floors := facts.floors[rest[0] := Max(Get(facts.floors, rest[0]), least)]) else facts;
    CutFloorIs(facts, ids, folded, spent, timedOut, top);
    assert Killed(facts, ids, folded, spent, timedOut, top) ==
           if timedOut then Outgrow(floored, rest, Target(spent, top)) else floored;
    OutgrowOnlyRaises(floored, rest, Target(spent, top));
    OutgrowTouchesFloors(floored, rest, Target(spent, top));
  }

  /** A kill that took no time, or left no id without a cell, teaches nothing. */
  lemma NoTimeTeachesNothing(facts: Facts, ids: seq<Id>, folded: Folded, spent: real, timedOut: bool,
                             top: Option<real>)
    requires spent <= 0.0 || Unfinished(ids, folded.cells.Keys) == []
    ensures Killed(facts, ids, folded, spent, timedOut, top) == facts
  {
  }

  lemma CutFloorIs(facts: Facts, ids: seq<Id>, folded: Folded, spent: real, timedOut: bool, top: Option<real>)
    ensures var explained := Sum(ids, Spent(folded.seconds)) + Sum(Files(ids), Overheads(facts));
            var grown := (spent - explained) * if timedOut || Signalled(folded) then TIMEOUT_GROWTH else 1.0;
            CutFloor(facts, ids, folded, spent, timedOut, top) == if top.Some? then Min(grown, top.value) else grown
  {
    hide Sum, Files, Overheads, Spent;
  }

  lemma OutgrowTouchesFloors(facts: Facts, rest: seq<Id>, target: real)
    ensures Outgrow(facts, rest, target) == facts.(floors := Outgrow(facts, rest, target).floors)
  {
    hide Sum, Price, SetEach, Raised;
  }

  /** And outgrowing raises no more than it must: short of the target the ids price at exactly it together, each raised
      as much as the others. */
  lemma OutgrownExactly(facts: Facts, rest: seq<Id>, target: real)
    requires rest != []
    ensures var before, after := Price(facts), Price(Outgrow(facts, rest, target));
            && Sum(rest, after) == Max(target, Sum(rest, before))
            && forall n, m :: n in rest && m in rest ==> after(n) - before(n) == after(m) - before(m)
  {
    hide Price, Sum, Raised;
    var short := target - Sum(rest, Price(facts));
    if short > 0.0 {
      var more := EvenShare(facts, rest, short);
      assert Outgrow(facts, rest, target) == facts.(floors := SetEach(facts.floors, rest, Raised(Price(facts), more)));
      hide SetEach, Outgrow;
      RaisedPrice(facts, rest, more);
      SumSame(rest, Price(Outgrow(facts, rest, target)), Raised(Price(facts), more));
      RaisedBy(Price(facts), more);
    }
  }

  lemma EvenShare(facts: Facts, rest: seq<Id>, short: real) returns (more: real)
    requires rest != [] && short > 0.0
    ensures more == short / |rest| as real && more >= 0.0
    ensures Sum(rest, Raised(Price(facts), more)) == Sum(rest, Price(facts)) + short
  {
    hide Price, Sum, Raised;
    more := short / |rest| as real;
    SharesSumBack(short, |rest|);
    SumRaised(rest, Price(facts), more);
  }

  lemma RaisedBy(price: Id -> real, more: real)
    ensures forall n :: Raised(price, more)(n) == price(n) + more
  {
  }

  lemma RaisedPrice(facts: Facts, rest: seq<Id>, more: real)
    requires more >= 0.0
    ensures forall n :: n in rest ==>
              Price(facts.(floors := SetEach(facts.floors, rest, Raised(Price(facts), more))))(n) ==
              Raised(Price(facts), more)(n)
  {
    hide Mean, FileOf, SetEach;
  }

  // ----- what a stream teaches

  /** The process exited by itself, with whatever code. */
  predicate Exits(folded: Folded) {
    folded.done.Some? && folded.done.value.code >= 0
  }

  /** The most memory a signalled item is known to have needed: what was read of it, or what its limit allowed. */
  function KnownNeed(folded: Folded, allowed: Option<real>): real {
    if folded.done.None? || folded.done.value.code >= 0 then 0.0
    else Max(OrZero(folded.done.value.peak), OrZero(allowed))
  }

  /** The overhead each file of an item that exited is charged. */
  function Share(ids: seq<Id>, folded: Folded): real
    requires Exits(folded) && Files(ids) != []
  {
    Max(0.0, folded.done.value.wall - Sum(ids, Spent(folded.seconds))) / |Files(ids)| as real
  }

  predicate ClosedFile(ids: seq<Id>, folded: Folded, file: string) {
    Exits(folded) && file in Files(ids)
  }

  /** Overheads: the share of each file of an item that exited. */
  ghost predicate TeachesOverheads(facts: Facts, ids: seq<Id>, folded: Folded, after: Amounts) {
    && (forall f :: f in after <==> f in facts.overheads || ClosedFile(ids, folded, f))
    && (forall f :: f in after ==>
          after[f] == if ClosedFile(ids, folded, f) then Share(ids, folded) else facts.overheads[f])
  }

  /** File peaks: of an item that exited, the worst of the round; of a signalled item of one file, what it needed
      doubled. */
  ghost predicate TeachesPeaks(facts: Facts, ids: seq<Id>, folded: Folded, need: real, after: Amounts) {
    forall f :: Get(after, f) ==
                if ClosedFile(ids, folded, f) && folded.done.value.peak.Some?
                then Max(if f in facts.round then Get(facts.peaks, f) else 0.0, folded.done.value.peak.value)
                else if need > 0.0 && Files(ids) == [f] then Max(Get(facts.peaks, f), 2.0 * need)
                else Get(facts.peaks, f)
  }

  /** An id's own floor: dropped when it finished, doubled need when a signal cut it. */
  ghost predicate TeachesIdPeaks(facts: Facts, ids: seq<Id>, folded: Folded, need: real, after: Amounts) {
    forall n :: Get(after, n) ==
                var kept := if n in folded.seconds then 0.0 else Get(facts.idPeaks, n);
                if need > 0.0 && FirstUnfinished(ids, folded.cells.Keys) == Some(n) then Max(kept, 2.0 * need) else kept
  }

  /**
   WHAT A STREAM TEACHES, fact by fact: a finished id's time, which drops its floors; from an item that exited the
   overhead its files share and the worst peak of the round for each of them; from a signalled one twice what it is
   known to have needed, for the id it cut and for the file when it is of one; and nothing else.
   */
  lemma WhatAStreamTeaches(facts: Facts, ids: seq<Id>, folded: Folded, allowed: Option<real>)
    requires ids != []
    ensures Teaches(facts, ids, folded, KnownNeed(folded, allowed), Learn(facts, ids, folded, allowed))
  {
    hide Sum, Timed, Files, Teaches, KilledPeak, SetEach, Finished;
    if folded.done.None? {
      UntaughtKeeps(facts, ids, folded);
    } else if Signalled(folded) {
      UntaughtKeeps(facts, ids, folded);
      if KnownNeed(folded, allowed) > 0.0 { KillTeaches(facts, ids, folded, KnownNeed(folded, allowed)); }
      else { NoNeedTeaches(facts, ids, folded, KnownNeed(folded, allowed)); }
    } else {
      ExitTeaches(facts, ids, folded, allowed);
    }
  }

  /** What of the round is read or taught: the files of an item that exited and was read; of a kill that is known, the
      file of a one-file item and the id it cut. */
  ghost predicate TeachesRound(facts: Facts, ids: seq<Id>, folded: Folded, need: real, after: Facts) {
    var files, cut := Files(ids), FirstUnfinished(ids, folded.cells.Keys);
    var lone := need > 0.0 && |files| == 1;
    && (forall f :: f in after.round <==>
          || f in facts.round || (lone && f == files[0])
          || (Exits(folded) && folded.done.value.peak.Some? && f in files))
    && (forall k :: k in after.taught <==>
          k in facts.taught || (lone && k == files[0]) || (need > 0.0 && cut == Some(k)))
  }

  ghost predicate Teaches(facts: Facts, ids: seq<Id>, folded: Folded, need: real, after: Facts) {
    && TeachesRound(facts, ids, folded, need, after)
    && after.durations == Timed(facts.durations, ids, folded.seconds)
    && after.floors == facts.floors - folded.seconds.Keys
    && TeachesOverheads(facts, ids, folded, after.overheads)
    && TeachesPeaks(facts, ids, folded, need, after.peaks)
    && TeachesIdPeaks(facts, ids, folded, need, after.idPeaks)
  }

  lemma UntaughtKeeps(facts: Facts, ids: seq<Id>, folded: Folded)
    requires !Exits(folded)
    ensures Teaches(facts, ids, folded, 0.0, Finished(facts, ids, folded))
  {
    hide Files, FirstUnfinished, Share, Timed;
  }

  lemma NoNeedTeaches(facts: Facts, ids: seq<Id>, folded: Folded, need: real)
    requires need <= 0.0 && Teaches(facts, ids, folded, 0.0, Finished(facts, ids, folded))
    ensures Teaches(facts, ids, folded, need, Finished(facts, ids, folded))
  {
    hide Files, FirstUnfinished, Share, Timed;
  }

  lemma KillTeaches(facts: Facts, ids: seq<Id>, folded: Folded, known: real)
    requires Signalled(folded) && ids != [] && known > 0.0
    ensures Teaches(facts, ids, folded, known,
                    KilledPeak(Finished(facts, ids, folded), ids, folded.cells.Keys, Files(ids), known * OOM_GROWTH))
  {
    hide Files, FirstUnfinished, Timed, Share, TeachesPeaks, TeachesIdPeaks, TeachesRound;
    KillTeachesFile(facts, ids, folded, known);
    KillTeachesId(facts, ids, folded, known);
    KillTeachesRound(facts, ids, folded, known);
  }

  lemma KillTeachesRound(facts: Facts, ids: seq<Id>, folded: Folded, known: real)
    requires Signalled(folded) && known > 0.0
    ensures TeachesRound(facts, ids, folded, known,
                         KilledPeak(Finished(facts, ids, folded), ids, folded.cells.Keys, Files(ids),
                                    known * OOM_GROWTH))
  {
    hide Files, FirstUnfinished, Timed;
  }

  lemma KillTeachesFile(facts: Facts, ids: seq<Id>, folded: Folded, known: real)
    requires Signalled(folded) && known > 0.0
    ensures TeachesPeaks(facts, ids, folded, known,
                         KilledPeak(Finished(facts, ids, folded), ids, folded.cells.Keys, Files(ids),
                                    known * OOM_GROWTH).peaks)
  {
    hide Files, FirstUnfinished, Timed, Share;
    assert |Files(ids)| == 1 ==> Files(ids) == [Files(ids)[0]];
  }

  lemma KillTeachesId(facts: Facts, ids: seq<Id>, folded: Folded, known: real)
    requires Signalled(folded) && known > 0.0
    ensures TeachesIdPeaks(facts, ids, folded, known,
                           KilledPeak(Finished(facts, ids, folded), ids, folded.cells.Keys, Files(ids),
                                      known * OOM_GROWTH).idPeaks)
  {
    hide Files, FirstUnfinished, Timed, Share;
  }

  lemma ExitTeaches(facts: Facts, ids: seq<Id>, folded: Folded, allowed: Option<real>)
    requires Exits(folded) && ids != []
    ensures Teaches(facts, ids, folded, 0.0, Learn(facts, ids, folded, allowed))
  {
    assert Files(ids) != [];
    SharesTeach(facts, ids, folded);
    if folded.done.value.peak.Some? { PeakTeaches(facts, ids, folded); } else { NoPeakTeaches(facts, ids, folded); }
    assert TeachesIdPeaks(facts, ids, folded, 0.0, facts.idPeaks - folded.seconds.Keys) by {
      hide Files, FirstUnfinished, SetEach, Sum;
    }
    ExitedFacts(facts, ids, folded, allowed);
    hide Files, FirstUnfinished, Timed, Sum, SetEach, KilledPeak, TeachesOverheads, TeachesPeaks, TeachesIdPeaks, Learn,
         Finished, Share, WorstPeak, Const, TeachesRound;
  }

  lemma ExitedFacts(facts: Facts, ids: seq<Id>, folded: Folded, allowed: Option<real>)
    requires Exits(folded) && ids != [] && Files(ids) != []
    ensures var after, files := Learn(facts, ids, folded, allowed), Files(ids);
            && after.durations == Timed(facts.durations, ids, folded.seconds)
            && after.floors == facts.floors - folded.seconds.Keys
            && after.idPeaks == facts.idPeaks - folded.seconds.Keys
            && TeachesRound(facts, ids, folded, 0.0, after)
            && after.overheads == SetEach(facts.overheads, files, Const(Share(ids, folded)))
            && after.peaks == if folded.done.value.peak.None? then facts.peaks
                              else SetEach(facts.peaks, files, WorstPeak(Finished(facts, ids, folded).(
                                     overheads := after.overheads), folded.done.value.peak.value))
  {
    hide Files, Timed, Sum, SetEach, KilledPeak, WorstPeak, Const;
  }

  lemma SharesTeach(facts: Facts, ids: seq<Id>, folded: Folded)
    requires Exits(folded) && Files(ids) != []
    ensures TeachesOverheads(facts, ids, folded, SetEach(facts.overheads, Files(ids), Const(Share(ids, folded))))
  {
    hide Files, Share, SetEach;
  }

  lemma PeakTeaches(facts: Facts, ids: seq<Id>, folded: Folded)
    requires Exits(folded) && Files(ids) != [] && folded.done.value.peak.Some?
    ensures forall o :: TeachesPeaks(facts, ids, folded, 0.0,
                                     SetEach(facts.peaks, Files(ids), WorstPeak(Finished(facts, ids, folded).(
                                       overheads := o), folded.done.value.peak.value)))
  {
    hide Files, Share, SetEach, Timed;
  }

  lemma NoPeakTeaches(facts: Facts, ids: seq<Id>, folded: Folded)
    requires Exits(folded) && folded.done.value.peak.None?
    ensures TeachesPeaks(facts, ids, folded, 0.0, facts.peaks)
  {
    hide Files;
  }

  // ----- an item estimated back

  lemma {:induction false} TimedAt(durations: Durations, ids: seq<Id>, seconds: Amounts)
    ensures forall n :: n in Timed(durations, ids, seconds).at <==> n in durations.at || (n in ids && n in seconds)
    ensures forall n :: n in Timed(durations, ids, seconds).at ==>
              Timed(durations, ids, seconds).at[n] == if n in ids && n in seconds then seconds[n] else durations.at[n]
  {
    if ids != [] {
      TimedAt(durations, ids[..|ids| - 1], seconds);
      assert ids == ids[..|ids| - 1] + [ids[|ids| - 1]];
    }
  }

  /** The timed ids are listed once each, in the order they were first timed. */
  ghost predicate InTimedOrder(durations: Durations) {
    Distinct(durations.order) && forall n :: n in durations.order <==> n in durations.at
  }

  lemma {:induction false} TimedInOrder(durations: Durations, ids: seq<Id>, seconds: Amounts)
    requires InTimedOrder(durations)
    ensures InTimedOrder(Timed(durations, ids, seconds)) && durations.order <= Timed(durations, ids, seconds).order
  {
    if ids != [] {
      var before, n := Timed(durations, ids[..|ids| - 1], seconds), ids[|ids| - 1];
      TimedInOrder(durations, ids[..|ids| - 1], seconds);
      assert forall i :: 0 <= i < |before.order| ==> before.order[i] in before.order;
    }
  }

  lemma {:induction false} SumConst(files: seq<string>, share: real)
    ensures Sum(files, Const(share)) == share * |files| as real
  {
    if files != [] {
      SumConst(files[..|files| - 1], share);
    }
  }

  lemma {:induction false} SumShared(files: seq<string>, ids: seq<Id>, price: Id -> real, share: real,
                                     cost: string -> real)
    requires forall f :: f in files ==> cost(f) == share + Sum(IdsOf(ids, f), price)
    ensures Sum(files, cost) == Sum(files, Const(share)) + SumOver(files, ids, FileOf, price)
  {
    if files != [] {
      var front, last := files[..|files| - 1], files[|files| - 1];
      assert last in files;
      assert Sum(files, cost) == Sum(front, cost) + cost(last);
      assert Sum(files, Const(share)) == Sum(front, Const(share)) + share;
      assert SumOver(files, ids, FileOf, price) == SumOver(front, ids, FileOf, price) + SumIn(ids, FileOf, last, price);
      hide FileOf, IdsOf, Sum, SumOver, SumIn;
      SumShared(front, ids, price, share, cost);
      IdsOfIsClass(ids, last, price);
    }
  }

  predicate AllTimed(ids: seq<Id>, folded: Folded) {
    forall n :: n in ids ==> n in folded.seconds && folded.seconds[n] >= 0.0
  }

  /**
   AN ITEM IS ESTIMATED BACK: once an item exited with every test timed, it is estimated at the wall it took, or at its
   tests alone where they took longer, however many files share the overhead.
   */
  lemma EstimatedBack(facts: Facts, ids: seq<Id>, folded: Folded, allowed: Option<real>, cost: real)
    requires Exits(folded) && ids != [] && AllTimed(ids, folded)
    ensures Seconds(Learn(facts, ids, folded, allowed), ids, cost) ==
            Max(folded.done.value.wall, Sum(ids, Spent(folded.seconds)))
  {
    hide Sum, Files, Learn, Seconds, Share, AllTimed;
    assert Files(ids) != [];
    SharesAddUp(ids, folded);
    EstimatedSum(facts, ids, folded, allowed, cost);
  }

  lemma EstimatedSum(facts: Facts, ids: seq<Id>, folded: Folded, allowed: Option<real>, cost: real)
    requires Exits(folded) && ids != [] && AllTimed(ids, folded) && Files(ids) != []
    ensures Seconds(Learn(facts, ids, folded, allowed), ids, cost) ==
            Sum(Files(ids), Const(Share(ids, folded))) + Sum(ids, Spent(folded.seconds))
  {
    hide Timed, Sum, Files, Learn, Seconds, Share, AllTimed;
    ExitedOverheads(facts, ids, folded, allowed);
    FilesEstimated(facts, ids, folded, Learn(facts, ids, folded, allowed), cost, Share(ids, folded));
  }

  lemma ExitedOverheads(facts: Facts, ids: seq<Id>, folded: Folded, allowed: Option<real>)
    requires Exits(folded) && ids != [] && Files(ids) != []
    ensures var after := Learn(facts, ids, folded, allowed);
            && after.durations == Timed(facts.durations, ids, folded.seconds)
            && after.floors == facts.floors - folded.seconds.Keys
            && forall f :: f in Files(ids) ==> f in after.overheads && after.overheads[f] == Share(ids, folded)
  {
    hide Timed, Sum, Files, Learn, Share;
    ExitedFacts(facts, ids, folded, allowed);
  }

  lemma FilesEstimated(facts: Facts, ids: seq<Id>, folded: Folded, after: Facts, cost: real, share: real)
    requires AllTimed(ids, folded)
    requires after.durations == Timed(facts.durations, ids, folded.seconds)
    requires after.floors == facts.floors - folded.seconds.Keys
    requires forall f :: f in Files(ids) ==> f in after.overheads && after.overheads[f] == share
    ensures Seconds(after, ids, cost) == Sum(Files(ids), Const(share)) + Sum(ids, Spent(folded.seconds))
  {
    hide Timed, Sum, Files, FileOf, IdsOf, FileSeconds;
    forall f | f in Files(ids) {
      FileEstimated(facts, ids, folded, after, cost, f, share);
    }
    SumShared(Files(ids), ids, Spent(folded.seconds), share, FileSeconds(after, ids, cost));
    DoubleCounting(Files(ids), ids, FileOf, Spent(folded.seconds));
  }

  lemma SharesAddUp(ids: seq<Id>, folded: Folded)
    requires Exits(folded) && Files(ids) != []
    ensures Sum(Files(ids), Const(Share(ids, folded))) ==
            Max(0.0, folded.done.value.wall - Sum(ids, Spent(folded.seconds)))
  {
    hide Sum, Files;
    SharesSumBack(Max(0.0, folded.done.value.wall - Sum(ids, Spent(folded.seconds))), |Files(ids)|);
    SumConst(Files(ids), Share(ids, folded));
  }

  lemma FileEstimated(facts: Facts, ids: seq<Id>, folded: Folded, after: Facts, cost: real, file: string, share: real)
    requires AllTimed(ids, folded)
    requires after.durations == Timed(facts.durations, ids, folded.seconds)
    requires after.floors == facts.floors - folded.seconds.Keys
    requires file in after.overheads && after.overheads[file] == share
    ensures FileSeconds(after, ids, cost)(file) == share + Sum(IdsOf(ids, file), Spent(folded.seconds))
  {
    hide Timed, Sum, FileOf, IdsOf, Mean, Mates;
    TimedAt(facts.durations, ids, folded.seconds);
    IdsOfFile(ids, file);
    SumSame(IdsOf(ids, file), Price(after), Spent(folded.seconds));
  }

  // ----- files and prices

  /** The file of a node id is what stands before its first double colon, or all of it. */
  lemma {:induction false} FileOfNode(file: string, rest: string)
    requires ':' !in file
    ensures FileOf(file + "::" + rest) == file && FileOf(file) == file
  {
    var node := file + "::" + rest;
    if file == "" {
      assert node[..2] == "::";
    } else {
      assert node[1..] == file[1..] + "::" + rest;
      assert node[0] == file[0] && file[0] in file && node[..2][0] != "::"[0];
      FileOfNode(file[1..], rest);
      if |file| >= 2 { assert file[..2][0] != "::"[0]; }
      assert file == [file[0]] + file[1..];
    }
  }

  lemma {:induction false} MatesOf(durations: Durations, order: seq<Id>, file: string)
    ensures Sum(Mates(durations, order, file), Itself()) == SumIn(order, FileOf, file, Spent(durations.at))
    ensures |Mates(durations, order, file)| as real == SumIn(order, FileOf, file, Const(1.0))
  {
    if order != [] {
      hide FileOf;
      var front, last := order[..|order| - 1], order[|order| - 1];
      MatesOf(durations, front, file);
      var before := Mates(durations, front, file);
      assert (before + [Get(durations.at, last)])[..|before|] == before && before + [] == before;
    }
  }

  /** What an id is priced at: its own time, else the mean of its file's timed ids, at least its floor. */
  lemma WhatAnIdCosts(facts: Facts, node: Id)
    ensures var known := if node in facts.durations.at then facts.durations.at[node]
                         else Mean(facts.durations, FileOf(node));
            var floor := if node in facts.floors then facts.floors[node] else 0.0;
            Price(facts)(node) == if known >= floor then known else floor
  {
    hide FileOf, Mean;
  }

  /** The mean of a file is what its timed ids took, over how many they are; nothing where none is timed. */
  lemma MeanIs(durations: Durations, file: string)
    ensures var mates := Mates(durations, durations.order, file);
            Mean(durations, file) * |mates| as real == Sum(mates, Itself())
    ensures Mates(durations, durations.order, file) == [] ==> Mean(durations, file) == 0.0
  {
    hide FileOf, Mates;
    var mates := Mates(durations, durations.order, file);
    if mates != [] { SharesSumBack(Sum(mates, Itself()), |mates|); }
  }

  /** What a file costs an item: the declared cost, or more where its floors say so, while nothing of it is measured;
      then its overhead and the prices of its ids. */
  lemma WhatAFileCosts(facts: Facts, ids: seq<Id>, cost: real, file: string)
    ensures var nodes := IdsOf(ids, file);
            var known := Mates(facts.durations, facts.durations.order, file) != [] || file in facts.overheads;
            var overhead := if file in facts.overheads then facts.overheads[file] else 0.0;
            FileSeconds(facts, ids, cost)(file) ==
            if known then overhead + Sum(nodes, Price(facts)) else Max(cost, Sum(nodes, Floors(facts)))
  {
    hide FileOf, Mates, Sum, IdsOf, Price, Floors;
  }
}
