/** The in-memory file a candidate edit tool works on: reading takes a snapshot, an edit call either
    succeeds as a whole or leaves the file as it was. Content hashes are idealised: two contents have
    one hash exactly when they are equal. */
module EditSimulator {
  import opened Wrappers
  import opened Splices
  import opened SourceLines
  import opened ExactEdits
  import opened LineEdits
  import Sorting

  datatype Snapshot = Snapshot(id: string, thread: string, path: string, content: string, window: Window)

  datatype Code =
    | InvalidToolArgs | SchemaInvalid | TooManyEdits | SnapshotExpired | ScopeMismatch | StaleFile
    | InvalidEdit | OldTextNotFound | ExactMatchNotFound | AmbiguousMatch | UnreadRange
    | OverlappingEdits | InvalidRange | NoChanges | CommitConflict

  /** `SimulationOutcome`. */
  datatype Report = Report(ok: bool, code: Option<Code>, content: string, editIndex: Option<nat>)

  /** Who calls, on which file, holding which snapshot. */
  datatype Caller = Caller(thread: string, path: string, snapshotId: Option<string>)

  /** The arguments of one line edit as the model gave them. */
  datatype RawEdit = RawEdit(text: Option<string>, action: Option<string>, line: Option<int>,
                             startLine: Option<int>, endLine: Option<int>)

  /** The three kinds of edit call. An edit item that is not an object of the expected shape is none. */
  datatype Call =
    | Exact(caller: Caller, target: Option<string>, text: Option<string>)
    | Batch(caller: Caller, edits: Option<seq<Option<Edit>>>)
    | Lines(caller: Caller, zeroWidth: bool, raws: Option<seq<Option<RawEdit>>>)

  /** What a run of calls depends on. */
  datatype File = File(content: string, snapshot: Option<Snapshot>)

  predicate Mine(s: Snapshot, c: Caller) {
    c.snapshotId == Some(s.id) && c.thread == s.thread && c.path == s.path
  }

  /** The snapshot is the caller's and the file has not changed since it was taken. */
  predicate Fresh(f: File, c: Caller) {
    f.snapshot.Some? && Mine(f.snapshot.value, c) && f.content == f.snapshot.value.content
  }

  function Values<T>(items: seq<Option<T>>): seq<T>
    requires AllSome(items)
  {
    seq(|items|, k requires 0 <= k < |items| => items[k].value)
  }

  predicate AllSome<T>(items: seq<Option<T>>) { forall k :: 0 <= k < |items| ==> items[k].Some? }

  /** `_parse_edit`: an insertion by action, by the zero-width notation, or a range. */
  function ParseEdit(raw: RawEdit, zeroWidth: bool): Option<LineEdit> {
    if raw.text.None? then None
    else if raw.action == Some("insert_before_line") || raw.action == Some("insert_after_line") then
      if raw.line.None? then None
      else
        var line := raw.line.value;
        Some(LineEdit(line, if raw.action == Some("insert_before_line") then line else line + 1, raw.text.value, true))
    else if raw.startLine.None? || raw.endLine.None? then None
    else
      var start, end := raw.startLine.value, raw.endLine.value;
      if end < start && zeroWidth && end == start - 1 then Some(LineEdit(start, end, raw.text.value, true))
      else if start < 1 || end < start then None
      else Some(LineEdit(start, end, raw.text.value, false))
  }

  predicate Parses(raws: seq<Option<RawEdit>>, zeroWidth: bool) {
    forall k :: 0 <= k < |raws| ==> raws[k].Some? && ParseEdit(raws[k].value, zeroWidth).Some?
  }

  function Parsed(raws: seq<Option<RawEdit>>, zeroWidth: bool): seq<LineEdit>
    requires Parses(raws, zeroWidth)
  {
    seq(|raws|, k requires 0 <= k < |raws| => ParseEdit(raws[k].value, zeroWidth).value)
  }

  ghost predicate LinesAccepted(content: string, w: Window, edits: seq<LineEdit>) {
    && edits != [] && Clean(SplitLines(content), edits)
    && (forall k :: 0 <= k < |edits| ==> SeenLines(edits[k], w))
    && LineResult(content, edits) != content
  }

  /** `str.count`: occurrences that do not overlap. */
  function Count(s: string, part: string, from: nat): nat
    requires part != ""
    decreases |s| - from
  {
    var at := Find(s, part, from);
    if at < 0 then 0 else 1 + Count(s, part, at + |part|)
  }

  /** `str.replace` with a limit of one: the first occurrence in the whole text. */
  function FirstReplaced(content: string, target: string, text: string): string {
    var at := Find(content, target, 0);
    if at < 0 then content else content[..at] + text + content[at + |target|..]
  }

  /** `line_block` of the window; empty text has no lines. */
  function Block(content: string, w: Window): string {
    if 1 <= w.first <= w.last <= |SplitLines(content)| then LineBlock(content, w.first, w.last) else ""
  }

  predicate ExactAccepted(content: string, w: Window, target: string, text: string) {
    if target == "" then content == "" && text != ""
    else Find(Block(content, w), target, 0) >= 0 && Count(Block(content, w), target, 0) == 1
         && FirstReplaced(content, target, text) != content
  }

  /** The text a call asks for, when it is in order; none when it is refused. */
  ghost function Wanted(f: File, call: Call): Option<string> {
    if !Fresh(f, call.caller) then None
    else
      var w := f.snapshot.value.window;
      match call
      case Exact(_, target, text) =>
        if target.None? || text.None? || !ExactAccepted(f.content, w, target.value, text.value) then None
        else Some(if target.value == "" then text.value else FirstReplaced(f.content, target.value, text.value))
      case Batch(_, edits) =>
        if edits.None? || !AllSome(edits.value) || !Accepted(f.content, w, Values(edits.value)) then None
        else Some(Proposed(f.content, w, Values(edits.value)))
      case Lines(_, zeroWidth, raws) =>
        if raws.None? || !Parses(raws.value, zeroWidth)
           || !LinesAccepted(f.content, w, Parsed(raws.value, zeroWidth)) then None
        else Some(LineResult(f.content, Parsed(raws.value, zeroWidth)))
  }

  /** The file after the call; `commit` is what someone else wrote just before the write. */
  ghost function After(f: File, call: Call, commit: Option<string>): File {
    if Wanted(f, call).None? then f
    else f.(content := if commit.Some? then commit.value else Wanted(f, call).value)
  }

  // ---- runs of calls ----------------------------------------------------------------------

  datatype Step = Step(call: Call, commit: Option<string>)

  ghost function Run(f: File, steps: seq<Step>): File
    decreases |steps|
  {
    if steps == [] then f else Run(After(f, steps[0].call, steps[0].commit), steps[1..])
  }

  ghost function Changes(f: File, steps: seq<Step>): nat
    decreases |steps|
  {
    if steps == [] then 0
    else
      var g := After(f, steps[0].call, steps[0].commit);
      (if g.content != f.content then 1 else 0) + Changes(g, steps[1..])
  }

  /** A call that is in order asks for a different text. */
  lemma WantedChanges(f: File, call: Call)
    requires Wanted(f, call).Some?
    ensures Fresh(f, call.caller) && Wanted(f, call).value != f.content
  {
  }

  lemma {:induction false} StaleStays(f: File, steps: seq<Step>)
    requires f.snapshot.Some? ==> f.content != f.snapshot.value.content
    ensures Run(f, steps) == f && Changes(f, steps) == 0
  {
    if steps != [] { StaleStays(f, steps[1..]); }
  }

  /** After one read the file changes at most once, whatever calls follow: the change makes the
      snapshot stale. The text in the end is the one that was read, the one some call of the run
      asked for, or one that was injected at a commit. */
  lemma {:induction false} OneChangePerRead(f: File, steps: seq<Step>)
    ensures Changes(f, steps) <= 1
    ensures var end := Run(f, steps).content;
      || end == f.content
      || exists k :: 0 <= k < |steps| && Wanted(f, steps[k].call).Some?
                     && end == if steps[k].commit.Some? then steps[k].commit.value
                               else Wanted(f, steps[k].call).value
  {
    if steps != [] {
      hide Wanted;
      var g := After(f, steps[0].call, steps[0].commit);
      if g.content == f.content {
        assert g == f;
        OneChangePerRead(f, steps[1..]);
        var end := Run(f, steps[1..]).content;
        if end != f.content {
          var k :| 0 <= k < |steps[1..]| && Wanted(f, steps[1..][k].call).Some?
                   && end == if steps[1..][k].commit.Some? then steps[1..][k].commit.value
                             else Wanted(f, steps[1..][k].call).value;
          assert steps[k + 1] == steps[1..][k];
        }
      } else {
        WantedChanges(f, steps[0].call);
        StaleStays(g, steps[1..]);
        assert steps[0] in steps;
      }
    }
  }

  // ---- how far a call reaches -------------------------------------------------------------

  /** A batch in order on a text with plain line breaks, and line edits in order on any text, ask
      for a text that is byte for byte the same outside the lines that were read. */
  lemma WantedKeepsRest(f: File, call: Call)
    requires Wanted(f, call).Some?
    requires var w := f.snapshot.value.window; 1 <= w.first <= w.last <= |SplitLines(f.content)|
    requires (call.Batch? && Plain(f.content)) || call.Lines?
    ensures KeepsUnread(f.content, f.snapshot.value.window, Wanted(f, call).value)
  {
    hide Accepted, Proposed, SplitLines, LineStart, KeepsOutside, Plain, Clean, LineResult, SeenLines;
    var w := f.snapshot.value.window;
    if call.Batch? {
      PlainIsConfined(f.content, w);
      assert KeepsRest(f.content, w, Values(call.edits.value));
    } else {
      LineEditsStayInWindow(f.content, w, Parsed(call.raws.value, call.zeroWidth));
    }
    LineStartsAscend(f.content, w.first - 1, w.last);
  }

  const TABBED := "a\U{0B}b\nc"

  lemma TabbedOffsets()
    ensures LineStart(TABBED, 1) == 2 && NewlineStart(TABBED, 1) == 4 && |SplitLines(TABBED)| >= 1
  {
    var s := TABBED;
    assert s[1..][0] == '\U{0B}' && FirstLine(s[1..]) == 1;
    var tail := s[2..];
    assert s[1..][1..] == tail && tail[0] == 'b' && tail[1..][0] == '\n';
    assert FirstNewline(tail) == 2 && FirstNewline(s[1..]) == 3;
  }

  lemma TabbedOnce()
    ensures Once(TABBED, TABBED[0..4])
  {
    var s, part := TABBED, TABBED[0..4];
    hide Once, Find;
    OnceMeans(s, part);
    assert At(s, part, 0);
    forall j: nat | At(s, part, j) ensures j == 0 { assert j + 4 <= |s| && part[0] == s[j..j + 4][0]; }
  }

  /** A vertical tab ends a line for the reader but not for the check: the text after it on the
      same `\n`-line can be edited although it was never read. */
  lemma VerticalTabEscapes()
    ensures |SplitLines(TABBED)| >= 1 && !Confined(TABBED, Window(1, 1))
  {
    hide SplitLines, LineStart, NewlineStart, Once, Find, Confined;
    TabbedOffsets();
    TabbedOnce();
    NewlineStartZero(TABBED);
    ConfinedExactly(TABBED, Window(1, 1));
  }

  lemma NewlineStartZero(s: string)
    ensures NewlineStart(s, 0) == 0
  {
  }

  // ---- how far a single exact replacement reaches --------------------------------------------

  /** No single replacement of the target that is accepted changes text that was not read. */
  ghost predicate ExactConfined(content: string, w: Window, target: string)
    requires 1 <= w.first <= w.last <= |SplitLines(content)|
  {
    forall text :: ExactAccepted(content, w, target, text) ==>
      KeepsUnread(content, w, FirstReplaced(content, target, text))
  }

  /** The single replacement is looked up in the lines that were read but made at the first place in
      the whole text. Every accepted one stays in the lines that were read exactly when none is
      accepted at all, since the target does not occur once in those lines, or when its first
      occurrence in the text does not start before them. */
  lemma ExactConfinedExactly(content: string, w: Window, target: string)
    requires 1 <= w.first <= w.last <= |SplitLines(content)|
    ensures ExactConfined(content, w, target) <==>
      target == "" || Count(Block(content, w), target, 0) != 1
      || LineStart(content, w.first - 1) <= Find(content, target, 0)
  {
    assert content != "";
    hide LineStart, SplitLines, Block, KeepsUnread, FirstReplaced;
    if target != "" && Count(Block(content, w), target, 0) == 1 {
      if LineStart(content, w.first - 1) <= Find(content, target, 0) {
        forall text | ExactAccepted(content, w, target, text)
          ensures KeepsUnread(content, w, FirstReplaced(content, target, text))
        {
          FirstIsInside(content, w, target, text);
        }
      } else {
        var text := FirstIsBefore(content, w, target);
      }
    }
  }

  /** The first occurrence in the text is at or before the one in the lines that were read. */
  lemma FirstIsBounded(content: string, w: Window, target: string)
    requires 1 <= w.first <= w.last <= |SplitLines(content)| && Find(Block(content, w), target, 0) >= 0
    ensures 0 <= Find(content, target, 0) && Find(content, target, 0) + |target| <= LineStart(content, w.last)
  {
    hide LineStart, SplitLines;
    BlockIsStretch(content, w.first, w.last);
    PartOfPart(content, Block(content, w), LineStart(content, w.first - 1), target, Find(Block(content, w), target, 0));
  }

  lemma FirstIsInside(content: string, w: Window, target: string, text: string)
    requires 1 <= w.first <= w.last <= |SplitLines(content)| && Find(Block(content, w), target, 0) >= 0
    requires LineStart(content, w.first - 1) <= Find(content, target, 0)
    ensures KeepsUnread(content, w, FirstReplaced(content, target, text))
  {
    hide LineStart, SplitLines, Block;
    FirstIsBounded(content, w, target);
    LineStartsAscend(content, w.first - 1, w.last);
    var lo, hi, result := LineStart(content, w.first - 1), LineStart(content, w.last), FirstReplaced(content, target, text);
    assert result[..lo] == content[..lo];
    assert result[|result| - (|content| - hi)..] == content[hi..];
  }

  /** With the first occurrence before the lines that were read, some accepted new text differs there. */
  lemma FirstIsBefore(content: string, w: Window, target: string) returns (text: string)
    requires 1 <= w.first <= w.last <= |SplitLines(content)|
    requires target != "" && Count(Block(content, w), target, 0) == 1
    requires Find(content, target, 0) < LineStart(content, w.first - 1)
    ensures ExactAccepted(content, w, target, text)
    ensures !KeepsUnread(content, w, FirstReplaced(content, target, text))
  {
    hide LineStart, SplitLines, Block;
    FirstIsBounded(content, w, target);
    LineStartsAscend(content, w.first - 1, w.last);
    var lo, at := LineStart(content, w.first - 1), Find(content, target, 0);
    text := if content[at] == 'a' then "b" else "a";
    var result := FirstReplaced(content, target, text);
    assert result[at] == text[0] != content[at];
    assert |result| >= lo ==> result[..lo][at] == result[at] && content[..lo][at] == content[at];
  }

  const REPEATED := "a\na\n"

  lemma RepeatedLines()
    ensures |SplitLines(REPEATED)| == 2 && Block(REPEATED, Window(2, 2)) == "a\n" && LineStart(REPEATED, 1) == 2
  {
    var s := REPEATED;
    assert s[1..][0] == '\n' && FirstLine(s[1..]) == 1 && FirstLine(s) == 2;
    var rest := s[2..];
    assert rest == "a\n" && rest[1..][0] == '\n' && FirstLine(rest[1..]) == 1 && FirstLine(rest) == 2;
    assert rest[..2] == rest && rest[2..] == "";
    assert SplitLines(rest) == [rest];
    assert SplitLines(s) == [s[..2], rest];
    assert SplitLines(s)[1..2] == [rest];
    assert Join([rest]) == rest;
  }

  /** The second of two equal lines was read; replacing its text is accepted and changes the first. */
  lemma FirstLineIsHit()
    ensures |SplitLines(REPEATED)| == 2
    ensures ExactAccepted(REPEATED, Window(2, 2), "a", "b") && FirstReplaced(REPEATED, "a", "b") == "b\na\n"
    ensures !KeepsUnread(REPEATED, Window(2, 2), FirstReplaced(REPEATED, "a", "b"))
  {
    RepeatedLines();
    hide SplitLines, Block, LineStart;
    assert "a\n"[1..2][0] == '\n';
    assert At(REPEATED, "a", 0) && At("a\n", "a", 0) && !At("a\n", "a", 1);
    assert Find("a\n", "a", 0) == 0 && Find("a\n", "a", 1) == -1;
    var result := FirstReplaced(REPEATED, "a", "b");
    assert result == "b\na\n";
    LineStartsAscend(REPEATED, 1, 2);
    assert result[..2][0] != REPEATED[..2][0];
  }

  // ---- what a refusal says ------------------------------------------------------------------

  /** The code of a failed batch and the edit it points at. */
  ghost predicate Explains(content: string, w: Window, edits: seq<Edit>, code: Code, index: Option<nat>) {
    match code
    case TooManyEdits => |edits| > MAX_EDITS
    case NoChanges =>
      if HasEmptyTarget(edits) then edits[0].text == content == ""
      else Placeable(content, w, edits) && Outcome(content, w, edits) == content
    case _ => index.Some? && index.value < |edits| && Blames(content, w, edits, code, index.value)
  }

  /** What is wrong with the edit at `k`. */
  ghost predicate Blames(content: string, w: Window, edits: seq<Edit>, code: Code, k: nat)
    requires k < |edits|
  {
    var target, cut := edits[k].target, CutOf(content, edits[k]);
    match code
    case InvalidEdit => target == "" && (|edits| > 1 || content != "")
    case ExactMatchNotFound => forall i: nat :: !At(content, target, i)
    case AmbiguousMatch => exists i: nat, j: nat :: i < j && At(content, target, i) && At(content, target, j)
    case UnreadRange => Once(content, target) && !Seen(content, w, cut.start, target)
    case OverlappingEdits => exists j :: 0 <= j < |edits| && j != k && !Apart(cut, CutOf(content, edits[j]))
    case _ => false
  }

  datatype Span = Span(cut: Cut<char>, index: nat)

  function SpanStart(s: Span): int { s.cut.start }

  function SpanCut(s: Span): Cut<char> { s.cut }

  function Spans(content: string, edits: seq<Edit>): seq<Span> {
    seq(|edits|, k requires 0 <= k < |edits| => Span(CutOf(content, edits[k]), k))
  }

  /** The sorted spans are the listing of the cuts, each with the edit it came from. */
  lemma SortedSpans(content: string, edits: seq<Edit>)
    ensures var sorted := Sorting.Sort(Spans(content, edits), SpanStart);
      && Sorting.Map(sorted, SpanCut) == Listing(content, edits)
      && (forall k :: 0 <= k < |sorted| ==>
            sorted[k].index < |edits| && sorted[k].cut == CutOf(content, edits[sorted[k].index]))
  {
    hide CutOf;
    var spans := Spans(content, edits);
    var sorted := Sorting.Sort(spans, SpanStart);
    Sorting.MapSort(spans, SpanCut, SpanStart, Start);
    Sorting.SortPermutes(spans, SpanStart);
    assert Sorting.Map(spans, SpanCut) == Cuts(content, edits);
    forall k | 0 <= k < |sorted|
      ensures sorted[k].index < |edits| && sorted[k].cut == CutOf(content, edits[sorted[k].index])
    {
      assert sorted[k] in multiset(sorted) && sorted[k] in spans;
    }
  }

  /** No edit is listed twice. */
  lemma SpansAreDistinct(content: string, edits: seq<Edit>, sorted: seq<Span>)
    requires multiset(sorted) == multiset(Spans(content, edits))
    ensures forall j, k :: 0 <= j < k < |sorted| ==> sorted[j].index != sorted[k].index
  {
    hide CutOf;
    var spans := Spans(content, edits);
    forall j, k | 0 <= j < k < |sorted| ensures sorted[j].index != sorted[k].index {
      assert sorted[j] in multiset(spans) && sorted[k] in multiset(spans);
      assert sorted[j] == spans[sorted[j].index] && sorted[k] == spans[sorted[k].index];
      if sorted[j] == sorted[k] {
        Sorting.Twice(sorted, j, k);
        var a, b := Sorting.TwicePlaces(spans, sorted[j]);
        assert false;
      }
    }
  }

  /** The search loop: the spans of all edits, or the first edit that cannot be placed. */
  method PlaceEdits(content: string, w: Window, edits: seq<Edit>)
    returns (spans: seq<Span>, failure: Option<(Code, nat)>)
    requires !HasEmptyTarget(edits)
    ensures failure.None? <==> forall i :: 0 <= i < |edits| ==> Placed(content, w, edits[i])
    ensures failure.None? ==> spans == Spans(content, edits)
    ensures failure.Some? ==> Explains(content, w, edits, failure.value.0, Some(failure.value.1))
  {
    hide Seen, Find, Placeable, Outcome;
    spans := [];
    for k := 0 to |edits|
      invariant forall i :: 0 <= i < k ==> Placed(content, w, edits[i])
      invariant spans == Spans(content, edits)[..k]
    {
      var e := edits[k];
      assert e in edits;
      var start := Find(content, e.target, 0);
      if start < 0 { return spans, Some((ExactMatchNotFound, k)); }
      var again := Find(content, e.target, start + 1);
      if again >= 0 {
        assert At(content, e.target, start) && At(content, e.target, again);
        return spans, Some((AmbiguousMatch, k));
      }
      if !Seen(content, w, start, e.target) { return spans, Some((UnreadRange, k)); }
      spans := spans + [Span(Cut(start, start + |e.target|, e.text), k)];
    }
    return spans, None;
  }

  /** The scan over neighbours of the sorted spans: the place of the first that begins too early. */
  method FindClash(sorted: seq<Span>) returns (place: Option<nat>)
    ensures place.None? <==> NeighboursApart(Sorting.Map(sorted, SpanCut))
    ensures place.Some? ==>
      0 < place.value < |sorted| && sorted[place.value].cut.start < sorted[place.value - 1].cut.end
  {
    var k := 1;
    while k < |sorted|
      invariant forall i :: 0 <= i < k - 1 && i + 1 < |sorted| ==> sorted[i].cut.end <= sorted[i + 1].cut.start
    {
      if sorted[k].cut.start < sorted[k - 1].cut.end {
        var cuts := Sorting.Map(sorted, SpanCut);
        assert cuts[k - 1].end > cuts[k - 1 + 1].start;
        return Some(k);
      }
      k := k + 1;
    }
    return None;
  }

  /** Sort, compare neighbours, splice from the back. */
  method ComposeEdits(content: string, w: Window, edits: seq<Edit>)
    returns (proposed: string, clash: Option<nat>)
    requires forall i :: 0 <= i < |edits| ==> Placed(content, w, edits[i])
    ensures clash.None? <==> Placeable(content, w, edits)
    ensures clash.None? ==> proposed == Outcome(content, w, edits)
    ensures clash.Some? ==> Explains(content, w, edits, OverlappingEdits, clash)
  {
    hide Placed, Placeable, Sorting.Sort, Listing, Explains, NeighboursApart, Ordered, Within, Replaced, Spans, NonEmpty,
      SortedByStart;
    var sorted := Sorting.Sort(Spans(content, edits), SpanStart);
    SortedSpans(content, edits);
    var cuts := Sorting.Map(sorted, SpanCut);
    CutsFit(content, w, edits);
    ListingIsOrdered(content, w, edits);
    NeighboursSuffice(|content|, cuts);
    var place := FindClash(sorted);
    if place.Some? {
      ClashExplains(content, w, edits, sorted, place.value);
      return content, Some(sorted[place.value].index);
    }
    clash := None;
    proposed := BackToFront(content, cuts);
  }

  lemma ClashExplains(content: string, w: Window, edits: seq<Edit>, sorted: seq<Span>, k: nat)
    requires forall i :: 0 <= i < |edits| ==> Placed(content, w, edits[i])
    requires sorted == Sorting.Sort(Spans(content, edits), SpanStart)
    requires 0 < k < |sorted| && sorted[k].cut.start < sorted[k - 1].cut.end
    ensures Explains(content, w, edits, OverlappingEdits, Some(sorted[k].index))
  {
    hide Placed, Explains, Sorting.Sort, CutOf;
    SortedSpans(content, edits);
    Sorting.SortPermutes(Spans(content, edits), SpanStart);
    Sorting.SortSorts(Spans(content, edits), SpanStart);
    SpansAreDistinct(content, edits, sorted);
    assert SpanStart(sorted[k - 1]) <= SpanStart(sorted[k]);
    ClashPointsAt(content, w, edits, sorted[k], sorted[k - 1]);
  }

  lemma ClashPointsAt(content: string, w: Window, edits: seq<Edit>, a: Span, b: Span)
    requires forall i :: 0 <= i < |edits| ==> Placed(content, w, edits[i])
    requires a.index < |edits| && b.index < |edits| && a.index != b.index
    requires a.cut == CutOf(content, edits[a.index]) && b.cut == CutOf(content, edits[b.index])
    requires b.cut.start <= a.cut.start < b.cut.end
    ensures Explains(content, w, edits, OverlappingEdits, Some(a.index))
  {
    hide Once, Seen, Find;
    assert Placed(content, w, edits[a.index]);
    assert !Apart(a.cut, b.cut);
  }

  /** `empty_indexes[0]`, or the length when no target is empty. */
  function FirstEmpty(edits: seq<Edit>, from: nat): (k: nat)
    requires from <= |edits| && forall j :: 0 <= j < from ==> edits[j].target != ""
    ensures k <= |edits| && forall j :: 0 <= j < k ==> edits[j].target != ""
    ensures k < |edits| ==> edits[k].target == ""
    decreases |edits| - from
  {
    if from == |edits| || edits[from].target == "" then from else FirstEmpty(edits, from + 1)
  }

  /** The first item that is not an edit object, or the length when all are. */
  function FirstMissing<T>(items: seq<Option<T>>, from: nat): (k: nat)
    requires from <= |items| && forall j :: 0 <= j < from ==> items[j].Some?
    ensures k <= |items| && forall j :: 0 <= j < k ==> items[j].Some?
    ensures k < |items| ==> items[k].None?
    decreases |items| - from
  {
    if from == |items| || items[from].None? then from else FirstMissing(items, from + 1)
  }

  /** The part of a batch call that looks at the text. */
  method ProposeBatch(content: string, w: Window, edits: seq<Edit>)
    returns (proposed: string, failure: Option<(Code, Option<nat>)>)
    requires 0 < |edits| <= MAX_EDITS
    ensures failure.None? <==> Accepted(content, w, edits)
    ensures failure.None? ==> proposed == Proposed(content, w, edits)
    ensures failure.Some? ==> Explains(content, w, edits, failure.value.0, failure.value.1)
    ensures failure.Some? ==> failure.value.0 !in {CommitConflict, StaleFile}
  {
    hide Placed, Outcome, PairwiseApart, Cuts;
    var k := FirstEmpty(edits, 0);
    if k < |edits| {
      assert HasEmptyTarget(edits) by { assert edits[k] in edits; }
      if |edits| > 1 || content != "" { return content, Some((InvalidEdit, Some(k))); }
      proposed := edits[0].text;
    } else {
      var spans, failed := PlaceEdits(content, w, edits);
      if failed.Some? { return content, Some((failed.value.0, Some(failed.value.1))); }
      var clash;
      proposed, clash := ComposeEdits(content, w, edits);
      if clash.Some? { return content, Some((OverlappingEdits, clash)); }
    }
    if proposed == content { return content, Some((NoChanges, None)); }
    return proposed, None;
  }

  /** What is wrong with a raw line edit that the argument loop stops at. */
  predicate RawBlames(content: string, w: Window, raw: Option<RawEdit>, zeroWidth: bool, code: Code) {
    match code
    case InvalidToolArgs => raw.None?
    case InvalidRange =>
      raw.Some? && var e := ParseEdit(raw.value, zeroWidth);
        e.None? || !ValidBounds(|SplitLines(content)|, e.value)
    case UnreadRange =>
      raw.Some? && var e := ParseEdit(raw.value, zeroWidth);
        e.Some? && ValidBounds(|SplitLines(content)|, e.value) && !SeenLines(e.value, w)
    case _ => false
  }

  /** The code of a failed call with line edits. */
  ghost predicate LinesExplain(content: string, w: Window, raws: seq<Option<RawEdit>>, zeroWidth: bool, code: Code) {
    match code
    case OverlappingEdits => Parses(raws, zeroWidth) && !Sorting.Pairwise(Parsed(raws, zeroWidth), Disjoint)
    case NoChanges =>
      Parses(raws, zeroWidth) && Clean(SplitLines(content), Parsed(raws, zeroWidth))
      && LineResult(content, Parsed(raws, zeroWidth)) == content
    case _ => exists raw :: raw in raws && RawBlames(content, w, raw, zeroWidth, code)
  }

  /** The argument loop of a line-edit call; it stops at the first edit that is not in order. */
  method ReadLineEdits(content: string, w: Window, raws: seq<Option<RawEdit>>, zeroWidth: bool)
    returns (edits: seq<LineEdit>, failure: Option<Code>)
    ensures failure.None? <==>
      && Parses(raws, zeroWidth) && AllValid(SplitLines(content), Parsed(raws, zeroWidth))
      && forall k :: 0 <= k < |raws| ==> SeenLines(Parsed(raws, zeroWidth)[k], w)
    ensures failure.None? ==> edits == Parsed(raws, zeroWidth)
    ensures failure.Some? ==> failure.value in {InvalidToolArgs, InvalidRange, UnreadRange}
    ensures failure.Some? ==> exists raw :: raw in raws && RawBlames(content, w, raw, zeroWidth, failure.value)
  {
    hide ParseEdit, ValidBounds, SeenLines, SplitLines;
    edits := [];
    var total := |SplitLines(content)|;
    for k := 0 to |raws|
      invariant |edits| == k
      invariant forall i :: 0 <= i < k ==> raws[i].Some? && ParseEdit(raws[i].value, zeroWidth) == Some(edits[i])
      invariant forall i :: 0 <= i < k ==> ValidBounds(total, edits[i]) && SeenLines(edits[i], w)
    {
      assert raws[k] in raws;
      if raws[k].None? {
        assert RawBlames(content, w, raws[k], zeroWidth, InvalidToolArgs);
        return edits, Some(InvalidToolArgs);
      }
      var parsed := ParseEdit(raws[k].value, zeroWidth);
      if parsed.None? {
        assert RawBlames(content, w, raws[k], zeroWidth, InvalidRange);
        return edits, Some(InvalidRange);
      }
      if !ValidBounds(total, parsed.value) {
        assert Parses(raws, zeroWidth) ==> Parsed(raws, zeroWidth)[k] == parsed.value;
        assert RawBlames(content, w, raws[k], zeroWidth, InvalidRange);
        return edits, Some(InvalidRange);
      }
      if !SeenLines(parsed.value, w) {
        assert Parses(raws, zeroWidth) ==> Parsed(raws, zeroWidth)[k] == parsed.value;
        assert RawBlames(content, w, raws[k], zeroWidth, UnreadRange);
        return edits, Some(UnreadRange);
      }
      edits := edits + [parsed.value];
    }
    return edits, None;
  }

  /** The part of a line-edit call that looks at the text. */
  method ProposeLines(content: string, w: Window, raws: seq<Option<RawEdit>>, zeroWidth: bool)
    returns (proposed: string, failure: Option<Code>)
    requires raws != []
    ensures failure.None? <==> Parses(raws, zeroWidth) && LinesAccepted(content, w, Parsed(raws, zeroWidth))
    ensures failure.None? ==> proposed == LineResult(content, Parsed(raws, zeroWidth))
    ensures failure.Some? ==> failure.value !in {CommitConflict, StaleFile}
    ensures failure.Some? ==> LinesExplain(content, w, raws, zeroWidth, failure.value)
  {
    hide ParseEdit, ValidBounds, SeenLines, SplitLines, LineResult, RawBlames;
    var edits, failed := ReadLineEdits(content, w, raws, zeroWidth);
    if failed.Some? { return content, failed; }
    var clash := Overlaps(edits);
    if clash { return content, Some(OverlappingEdits); }
    proposed := ApplyEdits(content, edits);
    if proposed == content { return content, Some(NoChanges); }
    return proposed, None;
  }

  class InMemoryEditSimulator {
    const fixtureId: string
    const path: string
    var currentContent: string
    var snapshot: Option<Snapshot>
    var baselineContent: Option<string>
    var baselineReadContent: Option<string>

    constructor (fixtureId: string, path: string, source: string)
      ensures Valid() && State() == File(source, None) && this.path == path
    {
      this.fixtureId, this.path, currentContent := fixtureId, path, source;
      snapshot, baselineContent, baselineReadContent := None, None, None;
    }

    function State(): File
      reads this
    {
      File(currentContent, snapshot)
    }

    /** A snapshot shows lines of the text it was taken from, and its text is the baseline. */
    ghost predicate Valid()
      reads this
    {
      snapshot.Some? ==>
        var s := snapshot.value;
        && InText(s.content, s.window)
        && baselineContent == Some(s.content) && baselineReadContent == Some(Block(s.content, s.window))
    }

    /** `read`: only lines that exist can be read; a refused read changes nothing. */
    method Read(thread: string, p: string, first: int, last: int) returns (taken: Option<Snapshot>)
      requires Valid()
      modifies this
      ensures Valid() && currentContent == old(currentContent)
      ensures taken.Some? <==> p == path && first >= 0 && last >= 0 && InText(currentContent, Window(first, last))
      ensures taken.Some? ==>
        snapshot == taken == Some(Snapshot("snap-" + fixtureId, thread, path, currentContent, Window(first, last)))
      ensures taken.None? ==> snapshot == old(snapshot)
    {
      if p != path { return None; }
      var total := |SplitLines(currentContent)|;
      if total == 0 {
        if first != 1 || last != 1 { return None; }
      } else if first < 1 || last < first || last > total {
        return None;
      }
      taken := Some(Snapshot("snap-" + fixtureId, thread, p, currentContent, Window(first, last)));
      snapshot, baselineContent := taken, Some(currentContent);
      baselineReadContent := Some(Block(currentContent, Window(first, last)));
    }

    method ExternalChange(content: string)
      requires Valid()
      modifies this`currentContent
      ensures Valid() && State() == old(State()).(content := content)
      ensures snapshot.Some? && content != snapshot.value.content ==> forall call :: Wanted(State(), call).None?
    {
      currentContent := content;
    }

    method ExpireSnapshot()
      requires Valid()
      modifies this`snapshot
      ensures Valid() && State() == old(State()).(snapshot := None)
    {
      snapshot := None;
    }

    /** The snapshot checks shared by all calls. */
    method CheckSnapshot(caller: Caller) returns (code: Option<Code>)
      ensures code.None? <==> Fresh(State(), caller)
      ensures code.Some? ==> code.value in {SnapshotExpired, ScopeMismatch, StaleFile}
      ensures code == Some(StaleFile) <==>
        snapshot.Some? && Mine(snapshot.value, caller) && currentContent != snapshot.value.content
    {
      if snapshot.None? { return Some(SnapshotExpired); }
      if !Mine(snapshot.value, caller) { return Some(ScopeMismatch); }
      if currentContent != snapshot.value.content { return Some(StaleFile); }
      return None;
    }

    /** The commit: what someone else wrote first wins and the call fails. */
    method Commit(proposed: string, commit: Option<string>) returns (r: Report)
      modifies this`currentContent
      ensures currentContent == if commit.Some? then commit.value else proposed
      ensures r == Report(commit.None?, if commit.Some? then Some(CommitConflict) else None, currentContent, None)
    {
      currentContent := if commit.Some? then commit.value else proposed;
      return Report(commit.None?, if commit.Some? then Some(CommitConflict) else None, currentContent, None);
    }

    function Refused(code: Code, index: Option<nat>): (r: Report)
      reads this
    {
      Report(false, Some(code), currentContent, index)
    }

    /** What every call keeps: the file is what the specification says, the report tells it, and
        a conflict is reported exactly for a call in order that someone else's write overtook. */
    twostate predicate Done(call: Call, commit: Option<string>, r: Report)
      reads this
    {
      && Valid() && State() == After(old(State()), call, commit) && r.content == currentContent
      && (r.ok <==> Wanted(old(State()), call).Some? && commit.None?)
      && (r.ok <==> r.code.None?)
      && (r.code == Some(CommitConflict) <==> Wanted(old(State()), call).Some? && commit.Some?)
    }

    method ExecuteExactEdits(caller: Caller, raws: Option<seq<Option<Edit>>>, commit: Option<string>)
      returns (r: Report)
      requires Valid()
      modifies this`currentContent
      ensures Done(Batch(caller, raws), commit, r)
      ensures !r.ok && Fresh(old(State()), caller) && raws.Some? && raws.value != [] && AllSome(raws.value)
              && r.code != Some(CommitConflict) ==>
        Explains(old(currentContent), old(snapshot).value.window, Values(raws.value), r.code.value, r.editIndex)
    {
      hide Accepted, Proposed, Explains, InText, Block;
      if caller.snapshotId.None? { return Refused(InvalidToolArgs, None); }
      if raws.None? || raws.value == [] { EmptyIsRefused(currentContent); return Refused(SchemaInvalid, None); }
      if |raws.value| > MAX_EDITS { ManyAreRefused(State(), raws.value); return Refused(TooManyEdits, None); }
      var missing := FirstMissing(raws.value, 0);
      if missing < |raws.value| { return Refused(SchemaInvalid, Some(missing)); }
      var edits := Values(raws.value);
      var code := CheckSnapshot(caller);
      if code.Some? { return Refused(code.value, None); }
      var proposed, failure := ProposeBatch(currentContent, snapshot.value.window, edits);
      if failure.Some? { return Refused(failure.value.0, failure.value.1); }
      r := Commit(proposed, commit);
    }

    method ExecuteSnapshot(caller: Caller, zeroWidth: bool, raws: Option<seq<Option<RawEdit>>>, commit: Option<string>)
      returns (r: Report)
      requires Valid()
      modifies this`currentContent
      ensures Done(Lines(caller, zeroWidth, raws), commit, r)
      ensures !r.ok && Fresh(old(State()), caller) && raws.Some? && raws.value != [] && r.code != Some(CommitConflict) ==>
        LinesExplain(old(currentContent), old(snapshot).value.window, raws.value, zeroWidth, r.code.value)
    {
      hide LinesAccepted, Parses, Parsed, LineResult, InText, Block, LinesExplain;
      var code := CheckSnapshot(caller);
      if code.Some? { return Refused(code.value, None); }
      if raws.None? || raws.value == [] { NoLinesRefused(currentContent, zeroWidth); return Refused(InvalidToolArgs, None); }
      var proposed, failure := ProposeLines(currentContent, snapshot.value.window, raws.value, zeroWidth);
      if failure.Some? { return Refused(failure.value, None); }
      r := Commit(proposed, commit);
    }

    method ExecuteExact(caller: Caller, target: Option<string>, text: Option<string>, commit: Option<string>)
      returns (r: Report)
      requires Valid()
      modifies this`currentContent
      ensures Done(Exact(caller, target, text), commit, r)
      ensures !r.ok && Fresh(old(State()), caller) && target.Some? && text.Some? && r.code != Some(CommitConflict) ==>
        ExactExplains(old(currentContent), old(snapshot).value.window, target.value, text.value, r.code.value)
    {
      hide Find, Count, InText, Block;
      if caller.snapshotId.None? || target.None? || text.None? { return Refused(InvalidToolArgs, None); }
      var code := CheckSnapshot(caller);
      if code.Some? { return Refused(code.value, None); }
      var wanted, block := target.value, baselineReadContent.value;
      var proposed;
      if wanted == "" {
        if baselineContent.value != "" { return Refused(InvalidEdit, None); }
        proposed := text.value;
      } else {
        if Find(block, wanted, 0) < 0 {
          if Find(currentContent, wanted, 0) >= 0 { return Refused(UnreadRange, None); }
          return Refused(OldTextNotFound, None);
        }
        if Count(block, wanted, 0) != 1 { return Refused(AmbiguousMatch, None); }
        proposed := FirstReplaced(baselineContent.value, wanted, text.value);
      }
      if proposed == currentContent { return Refused(NoChanges, None); }
      r := Commit(proposed, commit);
    }
  }

  /** The code of a failed single replacement. */
  predicate ExactExplains(content: string, w: Window, target: string, text: string, code: Code) {
    var shown := target != "" && Find(Block(content, w), target, 0) >= 0;
    match code
    case InvalidEdit => target == "" && content != ""
    case UnreadRange => target != "" && !shown && Find(content, target, 0) >= 0
    case OldTextNotFound => target != "" && !shown && Find(content, target, 0) < 0
    case AmbiguousMatch => shown && Count(Block(content, w), target, 0) != 1
    case NoChanges => if target == "" then text == content == "" else shown && FirstReplaced(content, target, text) == content
    case _ => false
  }

  /** Lines `w` of the text exist; an empty text is read as line 1. */
  predicate InText(content: string, w: Window) {
    var total := |SplitLines(content)|;
    if total == 0 then w == Window(1, 1) else 1 <= w.first <= w.last <= total
  }

  lemma EmptyIsRefused(content: string)
    ensures forall w :: !Accepted(content, w, [])
    ensures Values<Edit>([]) == []
  {
  }

  lemma ManyAreRefused(f: File, raws: seq<Option<Edit>>)
    requires |raws| > MAX_EDITS
    ensures AllSome(raws) ==> forall w :: !Accepted(f.content, w, Values(raws))
    ensures AllSome(raws) ==> forall w :: Explains(f.content, w, Values(raws), TooManyEdits, None)
  {
  }

  lemma NoLinesRefused(content: string, zeroWidth: bool)
    ensures Parses([], zeroWidth) ==> forall w :: !LinesAccepted(content, w, Parsed([], zeroWidth))
  {
  }
}
