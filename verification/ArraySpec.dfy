/** Shard indices printed as Slurm ranges, and the accounting's ranges read back. */
module ArraySpec {
  import opened Options

  type Run = (nat, nat)

  // ----- decimal numbers

  function Digit(d: nat): char
    requires d < 10
  {
    ('0' as int + d) as char
  }

  function Digits(n: nat): string {
    if n < 10 then [Digit(n)] else Digits(n / 10) + [Digit(n % 10)]
  }

  predicate IsDigit(c: char) {
    '0' <= c <= '9'
  }

  function Parsed(text: string): Option<nat> {
    if text == [] || !IsDigit(text[|text| - 1]) then None
    else
      var last := text[|text| - 1] as int - '0' as int;
      if |text| == 1 then Some(last)
      else
        var front := Parsed(text[..|text| - 1]);
        if front.None? then None else Some(10 * front.value + last)
  }

  /** A printed number is read back as itself, and is nothing but digits. */
  lemma {:induction false} DigitsReadBack(n: nat)
    ensures Parsed(Digits(n)) == Some(n)
    ensures Digits(n) != [] && forall c :: c in Digits(n) ==> IsDigit(c)
  {
    if n >= 10 {
      DigitsReadBack(n / 10);
      assert Digits(n)[..|Digits(n)| - 1] == Digits(n / 10);
    }
  }

  // ----- runs of consecutive indices

  function Runs(indices: seq<nat>): (runs: seq<Run>)
    ensures runs == [] <==> indices == []
  {
    if indices == [] then []
    else
      var before, index := Runs(indices[..|indices| - 1]), indices[|indices| - 1];
      if before != [] && index == before[|before| - 1].1 + 1
      then before[|before| - 1 := (before[|before| - 1].0, index)]
      else before + [(index, index)]
  }

  function RunText(run: Run): string {
    if run.0 == run.1 then Digits(run.0) else Digits(run.0) + "-" + Digits(run.1)
  }

  function Texts(runs: seq<Run>): (texts: seq<string>)
    ensures |texts| == |runs|
  {
    seq(|runs|, k requires 0 <= k < |runs| => RunText(runs[k]))
  }

  function Join(parts: seq<string>, comma: char): string {
    if parts == [] then "" else if |parts| == 1 then parts[0]
    else Join(parts[..|parts| - 1], comma) + [comma] + parts[|parts| - 1]
  }

  function SpecOf(indices: seq<nat>, throttle: int): string {
    Join(Texts(Runs(indices)), ',') + "%" + Digits(if throttle > 1 then throttle else 1)
  }

  method Spec(indices: seq<nat>, throttle: int) returns (spec: string)
    ensures spec == SpecOf(indices, throttle)
  {
    var runs: seq<Run> := [];
    for i := 0 to |indices|
      invariant runs == Runs(indices[..i])
    {
      assert indices[..i + 1][..i] == indices[..i];
      var last := |runs| - 1;
      if runs != [] && indices[i] == runs[last].1 + 1 {
        runs := runs[last := (runs[last].0, indices[i])];
      } else {
        runs := runs + [(indices[i], indices[i])];
      }
    }
    assert indices[..|indices|] == indices;
    spec := Join(Texts(runs), ',') + "%" + Digits(if throttle > 1 then throttle else 1);
  }

  // ----- reading ranges back

  predicate Bracket(c: char) {
    c == '[' || c == ']'
  }

  function Stripped(text: string): string {
    if text == [] then []
    else if Bracket(text[0]) then Stripped(text[1..])
    else if Bracket(text[|text| - 1]) then Stripped(text[..|text| - 1])
    else text
  }

  /** What precedes the first `c`. */
  function Before(text: string, c: char): string {
    if text == [] || text[0] == c then [] else [text[0]] + Before(text[1..], c)
  }

  /** What follows the first `c`, nothing where there is none. */
  function Behind(text: string, c: char): string {
    if text == [] then [] else if text[0] == c then text[1..] else Behind(text[1..], c)
  }

  function Split(text: string, c: char): (parts: seq<string>)
    ensures parts != []
    decreases |text|
  {
    if c !in text then [text]
    else
      BehindIsShorter(text, c);
      [Before(text, c)] + Split(Behind(text, c), c)
  }

  lemma {:induction false} BehindIsShorter(text: string, c: char)
    requires c in text
    ensures |Behind(text, c)| < |text|
  {
    if text[0] != c {
      BehindIsShorter(text[1..], c);
    }
  }

  function Range(low: nat, high: nat): seq<nat> {
    if low > high then [] else if low == high then [low] else Range(low, high - 1) + [high]
  }

  /** One part: a number, or a range with both its ends. */
  function Part(text: string): Option<seq<nat>> {
    var low, high := Parsed(Before(text, '-')), Behind(text, '-');
    var top := if high == [] then low else Parsed(high);
    if low.None? || top.None? then None else Some(Range(low.value, top.value))
  }

  function Parts(texts: seq<string>): Option<seq<nat>> {
    if texts == [] then Some([])
    else
      var before, last := Parts(texts[..|texts| - 1]), Part(texts[|texts| - 1]);
      if before.None? || last.None? then None else Some(before.value + last.value)
  }

  function Expanded(spec: string): Option<seq<nat>> {
    Parts(Split(Before(Stripped(spec), '%'), ','))
  }

  method Expand(spec: string) returns (indices: Option<seq<nat>>)
    ensures indices == Expanded(spec)
  {
    var texts := Split(Before(Stripped(spec), '%'), ',');
    var listed := [];
    for i := 0 to |texts|
      invariant Parts(texts[..i]) == Some(listed)
    {
      assert texts[..i + 1][..i] == texts[..i];
      var part := Part(texts[i]);
      if part.None? {
        NothingRead(texts, i);
        return None;
      }
      listed := listed + part.value;
    }
    assert texts[..|texts|] == texts;
    return Some(listed);
  }

  lemma {:induction false} NothingRead(texts: seq<string>, i: nat)
    requires i < |texts| && Part(texts[i]).None?
    ensures Parts(texts).None?
    decreases |texts|
  {
    if i < |texts| - 1 {
      NothingRead(texts[..|texts| - 1], i);
    }
  }

  // ----- the round trip

  lemma {:induction false} BeforeOf(front: string, c: char, rest: string)
    requires c !in front
    ensures Before(front + [c] + rest, c) == front && Behind(front + [c] + rest, c) == rest
    ensures Before(front, c) == front && Behind(front, c) == []
  {
    if front != [] {
      BeforeOf(front[1..], c, rest);
      assert (front + [c] + rest)[1..] == front[1..] + [c] + rest;
    } else {
      assert front + [c] + rest == [c] + rest;
    }
  }

  /** Splitting undoes joining. */
  lemma {:induction false} SplitJoin(parts: seq<string>, c: char)
    requires parts != [] && forall p :: p in parts ==> c !in p
    ensures Split(Join(parts, c), c) == parts
  {
    if |parts| > 1 {
      var first, rest := parts[0], parts[1..];
      JoinFirst(parts, c);
      BeforeOf(first, c, Join(rest, c));
      assert (first + [c] + Join(rest, c))[|first|] == c;
      SplitJoin(rest, c);
      assert parts == [first] + rest;
    }
  }

  lemma {:induction false} JoinFirst(parts: seq<string>, c: char)
    requires |parts| > 1
    ensures Join(parts, c) == parts[0] + [c] + Join(parts[1..], c)
  {
    if |parts| > 2 {
      var front, last := parts[..|parts| - 1], parts[|parts| - 1];
      JoinFirst(front, c);
      assert front[1..] == parts[1..][..|parts| - 2];
      assert Join(parts, c) == (parts[0] + [c] + Join(front[1..], c)) + [c] + last;
      assert Join(parts[1..], c) == Join(front[1..], c) + [c] + last;
    }
  }

  predicate RangeChar(c: char) {
    IsDigit(c) || c == '-'
  }

  lemma RunReadsBack(run: Run)
    requires run.0 <= run.1
    ensures Part(RunText(run)) == Some(Range(run.0, run.1))
    ensures RunText(run) != [] && forall c :: c in RunText(run) ==> RangeChar(c)
  {
    DigitsReadBack(run.0);
    DigitsReadBack(run.1);
    BeforeOf(Digits(run.0), '-', Digits(run.1));
  }

  predicate RightWay(runs: seq<Run>) {
    forall k :: 0 <= k < |runs| ==> runs[k].0 <= runs[k].1
  }

  function Listed(runs: seq<Run>): seq<nat> {
    if runs == [] then [] else Listed(runs[..|runs| - 1]) + Range(runs[|runs| - 1].0, runs[|runs| - 1].1)
  }

  lemma ListedOneMore(runs: seq<Run>, index: nat)
    ensures Listed(runs + [(index, index)]) == Listed(runs) + [index]
  {
    assert (runs + [(index, index)])[..|runs|] == runs;
  }

  lemma ListedLonger(runs: seq<Run>, index: nat)
    requires runs != [] && RightWay(runs) && index == runs[|runs| - 1].1 + 1
    ensures var last := |runs| - 1; Listed(runs[last := (runs[last].0, index)]) == Listed(runs) + [index]
  {
    var last := |runs| - 1;
    assert runs[last := (runs[last].0, index)][..last] == runs[..last];
    assert Range(runs[last].0, index) == Range(runs[last].0, index - 1) + [index];
  }

  /** The runs of a sequence of indices list exactly it. */
  lemma {:induction false} RunsList(indices: seq<nat>)
    ensures RightWay(Runs(indices)) && Listed(Runs(indices)) == indices
  {
    if indices == [] {
      assert Runs(indices) == [] && Listed([]) == [];
    } else {
      hide Listed, Range, Runs, RightWay;
      var front, index := indices[..|indices| - 1], indices[|indices| - 1];
      RunsList(front);
      RunsUnfold(indices);
      assert indices == front + [index];
      OneIndexMore(Runs(front), index);
    }
  }

  lemma RunsUnfold(indices: seq<nat>)
    requires indices != []
    ensures var before, index := Runs(indices[..|indices| - 1]), indices[|indices| - 1];
            Runs(indices) == if before != [] && index == before[|before| - 1].1 + 1
                             then before[|before| - 1 := (before[|before| - 1].0, index)] else before + [(index, index)]
  {
  }

  lemma OneIndexMore(before: seq<Run>, index: nat)
    requires RightWay(before)
    ensures var runs := if before != [] && index == before[|before| - 1].1 + 1
                        then before[|before| - 1 := (before[|before| - 1].0, index)] else before + [(index, index)];
            RightWay(runs) && Listed(runs) == Listed(before) + [index]
  {
    hide Listed, Range;
    if before != [] && index == before[|before| - 1].1 + 1 {
      ListedLonger(before, index);
    } else {
      ListedOneMore(before, index);
    }
  }

  lemma TextsGrow(runs: seq<Run>)
    requires runs != []
    ensures Texts(runs) == Texts(runs[..|runs| - 1]) + [RunText(runs[|runs| - 1])]
  {
    hide RunText;
  }

  lemma PartsGrow(texts: seq<string>, last: string)
    ensures Parts(texts + [last]) ==
            if Parts(texts).None? || Part(last).None? then None else Some(Parts(texts).value + Part(last).value)
  {
    hide Part;
    assert (texts + [last])[..|texts|] == texts;
  }

  predicate Plain(text: string) {
    text != [] && forall c :: c in text ==> RangeChar(c)
  }

  lemma {:induction false} RunsReadBack(runs: seq<Run>)
    requires RightWay(runs)
    ensures Parts(Texts(runs)) == Some(Listed(runs))
    ensures forall k :: 0 <= k < |runs| ==> Plain(Texts(runs)[k])
  {
    hide Plain, Parts, RunText, Range, Part;
    if runs == [] {
      NoParts();
    } else {
      var last := |runs| - 1;
      RunsReadBack(runs[..last]);
      RunIsPlain(runs[last]);
      TextsGrow(runs);
      PartsGrow(Texts(runs[..last]), RunText(runs[last]));
    }
  }

  lemma NoParts()
    ensures Parts([]) == Some([])
  {
  }

  lemma RunIsPlain(run: Run)
    requires run.0 <= run.1
    ensures Part(RunText(run)) == Some(Range(run.0, run.1)) && Plain(RunText(run))
  {
    RunReadsBack(run);
  }

  lemma {:induction false} JoinIsOf(parts: seq<string>)
    requires forall k :: 0 <= k < |parts| ==> Plain(parts[k])
    ensures forall c :: c in Join(parts, ',') ==> RangeChar(c) || c == ','
    ensures parts != [] && parts[0] != [] ==> Join(parts, ',') != [] && Join(parts, ',')[0] == parts[0][0]
  {
    if |parts| > 1 {
      var front, last := parts[..|parts| - 1], parts[|parts| - 1];
      assert parts == front + [last] && Plain(last);
      JoinIsOf(front);
    } else if |parts| == 1 {
      assert Plain(parts[0]);
    }
  }

  /** Text that neither starts nor ends in a bracket is what stripping leaves, bare or bracketed. */
  lemma StripBrackets(text: string)
    requires text != [] && !Bracket(text[0]) && !Bracket(text[|text| - 1])
    ensures Stripped(text) == text && Stripped("[" + text + "]") == text
  {
    assert ("[" + text + "]")[1..] == text + "]";
    assert (text + "]")[..|text|] == text;
    assert (text + "]")[0] == text[0];
  }

  /** THE ROUND TRIP: what the spec prints is read back as the very indices, bare or in the accounting's brackets. */
  lemma SpecReadsBack(indices: seq<nat>, throttle: int)
    requires indices != []
    ensures Expanded("[" + SpecOf(indices, throttle) + "]") == Some(indices)
    ensures Expanded(SpecOf(indices, throttle)) == Some(indices)
  {
    hide Runs, Texts, Join, Split, Before, Stripped, Parts, Digits;
    var runs := Runs(indices);
    var joined := Join(Texts(runs), ',');
    var tasks := Digits(if throttle > 1 then throttle else 1);
    RunsList(indices);
    RunsReadBack(runs);
    JoinIsOf(Texts(runs));
    assert Plain(Texts(runs)[0]);
    assert forall p :: p in Texts(runs) ==> Plain(p) && ',' !in p;
    DigitsReadBack(if throttle > 1 then throttle else 1);
    var spec := joined + ['%'] + tasks;
    assert spec == SpecOf(indices, throttle);
    assert spec[|spec| - 1] == tasks[|tasks| - 1] && tasks[|tasks| - 1] in tasks;
    assert spec[0] == joined[0] && joined[0] in joined;
    StripBrackets(spec);
    BeforeOf(joined, '%', tasks);
    SplitJoin(Texts(runs), ',');
  }

  /** Of no indices the spec names no range, which the reader refuses. */
  lemma EmptySpecIsRefused(throttle: int)
    ensures Expanded(SpecOf([], throttle)).None?
  {
    var tasks := Digits(if throttle > 1 then throttle else 1);
    DigitsReadBack(if throttle > 1 then throttle else 1);
    var spec := "" + ['%'] + tasks;
    assert SpecOf([], throttle) == spec;
    assert spec[|spec| - 1] == tasks[|tasks| - 1] && tasks[|tasks| - 1] in tasks;
    StripBrackets(spec);
    BeforeOf("", '%', tasks);
    assert Split("", ',') == [""] && [""][..0] == [];
    assert Part("").None?;
  }

  // ----- the spec is as short as it can be

  /** The runs are maximal: none ends where the next begins. */
  lemma {:induction false} RunsAreLongest(indices: seq<nat>)
    ensures forall k :: 0 < k < |Runs(indices)| ==> Runs(indices)[k].0 != Runs(indices)[k - 1].1 + 1
  {
    if indices != [] {
      RunsAreLongest(indices[..|indices| - 1]);
    }
  }

  /** A run is printed with a dash exactly when it holds more than one index. */
  lemma DashOnlyInRanges(run: Run)
    ensures '-' in RunText(run) <==> run.0 != run.1
  {
    DigitsReadBack(run.0);
    assert (Digits(run.0) + "-" + Digits(run.1))[|Digits(run.0)|] == '-';
  }

  /** What follows the percent sign is how many tasks run at a time: the throttle, at least one. */
  lemma ThrottleReadsBack(indices: seq<nat>, throttle: int)
    ensures Parsed(Behind(SpecOf(indices, throttle), '%')) == Some(if throttle <= 1 then 1 else throttle)
  {
    hide Parsed, Runs, Texts, Join, Digits;
    var runs, tasks := Runs(indices), if throttle > 1 then throttle else 1;
    RunsList(indices);
    RunsReadBack(runs);
    JoinIsOf(Texts(runs));
    assert forall k :: 0 <= k < |runs| ==> Plain(Texts(runs)[k]);
    DigitsReadBack(tasks);
    BeforeOf(Join(Texts(runs), ','), '%', Digits(tasks));
    assert SpecOf(indices, throttle) == Join(Texts(runs), ',') + ['%'] + Digits(tasks);
  }
}
