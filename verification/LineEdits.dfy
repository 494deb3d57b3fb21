/** Edits of whole lines, applied bottom-up to the list of source lines, and the expected
    operations of an evaluation fixture as the independent reference. */
module LineEdits {
  import opened Wrappers
  import opened Splices
  import opened SourceLines
  import opened ExactEdits
  import Sorting

  /** An insertion goes before its line, or after it when `endLine` is the next line. */
  datatype LineEdit = LineEdit(startLine: int, endLine: int, text: string, insertion: bool)

  /** The source lines an edit occupies: a replaced range, or the anchor of an insertion. */
  function Occupied(e: LineEdit): set<int> {
    if e.insertion then {e.startLine} else set k | e.startLine <= k <= e.endLine && Covers(e, k)
  }

  predicate Covers(e: LineEdit, k: int) { e.startLine <= k <= e.endLine }

  predicate Disjoint(a: LineEdit, b: LineEdit) { Occupied(a) !! Occupied(b) }

  /** `_valid_bounds` for a text of `total` lines. */
  predicate ValidBounds(total: nat, e: LineEdit) {
    if e.insertion then (if total == 0 then e.startLine == 1 else 1 <= e.startLine <= total)
    else total > 0 && 1 <= e.startLine <= e.endLine <= total
  }

  predicate SeenLines(e: LineEdit, w: Window) {
    forall k :: k in Occupied(e) ==> w.first <= k <= w.last
  }

  /** `_overlaps`: a growing set of occupied lines finds every clash between two edits. */
  method Overlaps(edits: seq<LineEdit>) returns (clash: bool)
    ensures clash <==> !Sorting.Pairwise(edits, Disjoint)
  {
    var occupied: set<int> := {};
    for k := 0 to |edits|
      invariant occupied == set i, line | 0 <= i < k && line in Occupied(edits[i]) :: line
      invariant forall i, j :: 0 <= i < j < k ==> Disjoint(edits[i], edits[j])
    {
      var current := Occupied(edits[k]);
      if occupied * current != {} {
        ghost var line :| line in occupied * current;
        ghost var i :| 0 <= i < k && line in Occupied(edits[i]);
        assert !Disjoint(edits[i], edits[k]);
        return true;
      }
      occupied := occupied + current;
    }
    return false;
  }

  // ---- what a batch means -----------------------------------------------------------------

  function Clamp(n: int, max: nat): nat { if n < 0 then 0 else if n > max then max else n }

  /** The slice of `lines` an edit assigns to, and what it assigns. */
  function CutOfLines(lines: seq<string>, source: string, e: LineEdit): Cut<string>
    requires !e.insertion ==> 1 <= e.startLine <= e.endLine <= |lines|
  {
    if e.insertion then
      var index := Clamp(if e.endLine == e.startLine + 1 then e.startLine else e.startLine - 1, |lines|);
      var inserted := InsertedText(e.text, source);
      Cut(index, index, if inserted == "" then [] else [inserted])
    else
      var removed := Join(lines[e.startLine - 1..e.endLine]);
      Cut(e.startLine - 1, e.endLine, SplitLines(ReplacementText(e.text, removed, source)))
  }

  predicate AllValid(lines: seq<string>, edits: seq<LineEdit>) {
    forall i :: 0 <= i < |edits| ==> ValidBounds(|lines|, edits[i])
  }

  function LineCuts(lines: seq<string>, source: string, edits: seq<LineEdit>): seq<Cut<string>>
    requires AllValid(lines, edits)
  {
    seq(|edits|, i requires 0 <= i < |edits| => CutOfLines(lines, source, edits[i]))
  }

  /** Edits from the top of the text to its bottom, no two clashing. */
  ghost predicate TopDown(edits: seq<LineEdit>) {
    forall i, j :: 0 <= i < j < |edits| ==>
      edits[i].startLine < edits[j].startLine && Disjoint(edits[i], edits[j])
  }

  lemma OneAbove(lines: seq<string>, source: string, a: LineEdit, b: LineEdit)
    requires ValidBounds(|lines|, a) && ValidBounds(|lines|, b)
    requires a.startLine < b.startLine && Disjoint(a, b)
    ensures CutOfLines(lines, source, a).end <= CutOfLines(lines, source, b).start
  {
    assert (b.insertion || Covers(b, b.startLine)) && b.startLine in Occupied(b);
    assert !a.insertion && Covers(a, b.startLine) ==> b.startLine in Occupied(a);
  }

  lemma LineCutsAreOrdered(lines: seq<string>, source: string, edits: seq<LineEdit>)
    requires AllValid(lines, edits) && TopDown(edits)
    ensures Within(|lines|, LineCuts(lines, source, edits)) && Ordered(LineCuts(lines, source, edits))
  {
    var cuts := LineCuts(lines, source, edits);
    forall i, j | 0 <= i < j < |cuts| ensures cuts[i].end <= cuts[j].start {
      OneAbove(lines, source, edits[i], edits[j]);
    }
  }

  /** Every edit done at once, on the lines of the unedited text. */
  ghost function AtOnce(lines: seq<string>, source: string, edits: seq<LineEdit>): seq<string>
    requires AllValid(lines, edits) && TopDown(edits)
  {
    LineCutsAreOrdered(lines, source, edits);
    Replaced(lines, 0, LineCuts(lines, source, edits))
  }

  function Depth(e: LineEdit): int { -e.startLine }

  function Reversed<T>(s: seq<T>): (r: seq<T>)
    ensures |r| == |s| && forall k :: 0 <= k < |s| ==> r[k] == s[|s| - 1 - k]
  {
    seq(|s|, k requires 0 <= k < |s| => s[|s| - 1 - k])
  }

  ghost predicate Clean(lines: seq<string>, edits: seq<LineEdit>) {
    AllValid(lines, edits) && Sorting.Pairwise(edits, Disjoint)
  }

  lemma DistinctStarts(total: nat, a: LineEdit, b: LineEdit)
    requires ValidBounds(total, a) && ValidBounds(total, b) && Disjoint(a, b)
    ensures a.startLine != b.startLine && Disjoint(b, a)
  {
    assert (a.insertion || Covers(a, a.startLine)) && a.startLine in Occupied(a);
    assert (b.insertion || Covers(b, b.startLine)) && b.startLine in Occupied(b);
  }

  lemma SortedStaysClean(lines: seq<string>, edits: seq<LineEdit>)
    requires Clean(lines, edits)
    ensures Clean(lines, Sorting.Sort(edits, Depth))
  {
    hide Disjoint, ValidBounds;
    var sorted := Sorting.Sort(edits, Depth);
    Sorting.SortPermutes(edits, Depth);
    forall i | 0 <= i < |sorted| ensures ValidBounds(|lines|, sorted[i]) {
      assert sorted[i] in multiset(sorted) && sorted[i] in edits;
    }
    assert forall a, b :: Disjoint(a, b) ==> Disjoint(b, a) by { DisjointIsSymmetric(); }
    Sorting.PairwiseInAnyOrder(edits, sorted, Disjoint);
  }

  lemma DisjointIsSymmetric()
    ensures forall a, b :: Disjoint(a, b) ==> Disjoint(b, a)
  {
    hide Occupied;
  }

  /** Sorted from the bottom, edits that do not clash have strictly falling start lines. */
  lemma BottomUp(lines: seq<string>, edits: seq<LineEdit>)
    requires Clean(lines, edits)
    ensures AllValid(lines, Ascending(edits)) && TopDown(Ascending(edits))
  {
    hide Disjoint, ValidBounds;
    var sorted, r := Sorting.Sort(edits, Depth), Ascending(edits);
    Sorting.SortSorts(edits, Depth);
    SortedStaysClean(lines, edits);
    forall i, j | 0 <= i < j < |r| ensures r[i].startLine < r[j].startLine && Disjoint(r[i], r[j]) {
      assert Disjoint(r[j], r[i]);
      assert Depth(r[j]) <= Depth(r[i]);
      DistinctStarts(|lines|, r[j], r[i]);
    }
  }

  /** The edits of a batch from top to bottom. */
  ghost function Ascending(edits: seq<LineEdit>): seq<LineEdit> { Reversed(Sorting.Sort(edits, Depth)) }

  /** What a batch makes of the text. */
  ghost function LineResult(content: string, edits: seq<LineEdit>): string
    requires Clean(SplitLines(content), edits)
  {
    BottomUp(SplitLines(content), edits);
    Join(AtOnce(SplitLines(content), content, Ascending(edits)))
  }

  /** The edits above a processed one see the lines they refer to where they were. */
  lemma StepUp(lines: seq<string>, source: string, edits: seq<LineEdit>, now: seq<string>)
    requires AllValid(lines, edits) && TopDown(edits) && edits != []
    requires AllValid(lines, edits[1..]) && TopDown(edits[1..])
    requires now == AtOnce(lines, source, edits[1..])
    ensures var c := CutOfLines(lines, source, edits[0]);
      c.start <= c.end <= |now| && Spliced(now, c) == AtOnce(lines, source, edits)
    ensures !edits[0].insertion ==> edits[0].endLine <= |now|
    ensures CutOfLines(now, source, edits[0]) == CutOfLines(lines, source, edits[0])
  {
    hide SplitLines, ReplacementText, InsertedText, Join;
    var e := edits[0];
    var cuts := LineCuts(lines, source, edits);
    LineCutsAreOrdered(lines, source, edits);
    LineCutsAreOrdered(lines, source, edits[1..]);
    assert cuts[1..] == LineCuts(lines, source, edits[1..]);
    OneMore(lines, cuts);
    KeepsFront(lines, cuts[1..], cuts[0].end);
    assert now[..cuts[0].end] == lines[..cuts[0].end];
    if e.insertion {
      if |edits| > 1 { assert e.startLine < edits[1].startLine; }
    } else {
      assert now[e.startLine - 1..e.endLine] == now[..e.endLine][e.startLine - 1..];
    }
  }

  lemma TailIsClean(lines: seq<string>, edits: seq<LineEdit>, k: nat)
    requires AllValid(lines, edits) && TopDown(edits) && k <= |edits|
    ensures AllValid(lines, edits[k..]) && TopDown(edits[k..])
  {
  }

  /** The batch done for the lowest `k` edits. */
  ghost function Lowest(lines: seq<string>, source: string, edits: seq<LineEdit>, k: nat): seq<string>
    requires AllValid(lines, edits) && TopDown(edits) && k <= |edits|
  {
    TailIsClean(lines, edits, |edits| - k);
    AtOnce(lines, source, edits[|edits| - k..])
  }

  lemma NextUp(lines: seq<string>, source: string, edits: seq<LineEdit>, k: nat, now: seq<string>)
    requires AllValid(lines, edits) && TopDown(edits) && k < |edits|
    requires now == Lowest(lines, source, edits, k)
    ensures var e := edits[|edits| - 1 - k];
      && (!e.insertion ==> 1 <= e.startLine <= e.endLine <= |now|)
      && var c := CutOfLines(now, source, e);
         c.start <= c.end <= |now| && Spliced(now, c) == Lowest(lines, source, edits, k + 1)
  {
    hide AtOnce, ValidBounds, CutOfLines;
    var n := |edits| - 1 - k;
    TailIsClean(lines, edits, n);
    TailIsClean(lines, edits, n + 1);
    assert edits[n..][1..] == edits[n + 1..];
    assert edits[n..][0] == edits[n];
    StepUp(lines, source, edits[n..], now);
    assert ValidBounds(|lines|, edits[n]);
    ValidStart(|lines|, edits[n]);
  }

  lemma ValidStart(total: nat, e: LineEdit)
    requires ValidBounds(total, e)
    ensures !e.insertion ==> 1 <= e.startLine <= e.endLine
  {
  }

  /** One splice of the bottom-up loops: the slice of the list the edit assigns to. */
  method SpliceLines(lines: seq<string>, source: string, e: LineEdit) returns (r: seq<string>)
    requires !e.insertion ==> 1 <= e.startLine <= e.endLine <= |lines|
    ensures CutOfLines(lines, source, e).start <= CutOfLines(lines, source, e).end <= |lines|
    ensures r == Spliced(lines, CutOfLines(lines, source, e))
  {
    if e.insertion {
      var index := e.startLine - 1;
      if e.endLine == e.startLine + 1 { index := e.startLine; }
      var at := Clamp(index, |lines|);
      var inserted := InsertedText(e.text, source);
      r := lines[..at] + (if inserted != "" then [inserted] else []) + lines[at..];
    } else {
      var start, end := e.startLine - 1, e.endLine;
      var removed := Join(lines[start..end]);
      var replacement := ReplacementText(e.text, removed, source);
      r := lines[..start] + (if replacement != "" then SplitLines(replacement) else []) + lines[end..];
    }
  }

  /** `_apply_edits`: bottom-up splicing does every edit as if all were done at once. */
  method ApplyEdits(content: string, edits: seq<LineEdit>) returns (r: string)
    requires Clean(SplitLines(content), edits)
    ensures r == LineResult(content, edits)
  {
    hide Clean, AllValid, TopDown, Lowest, CutOfLines, SplitLines;
    var lines := SplitLines(content);
    ghost var given, asc := lines, Ascending(edits);
    BottomUp(lines, edits);
    var sorted := Sorting.Sort(edits, Depth);
    LowestNone(given, content, asc);
    for k := 0 to |sorted|
      invariant lines == Lowest(given, content, asc, k)
    {
      NextUp(given, content, asc, k, lines);
      lines := SpliceLines(lines, content, sorted[k]);
    }
    LowestAll(given, content, asc);
    return Join(lines);
  }

  lemma LowestNone(lines: seq<string>, source: string, edits: seq<LineEdit>)
    requires AllValid(lines, edits) && TopDown(edits)
    ensures Lowest(lines, source, edits, 0) == lines
  {
    assert lines[0..] == lines;
  }

  lemma LowestAll(lines: seq<string>, source: string, edits: seq<LineEdit>)
    requires AllValid(lines, edits) && TopDown(edits)
    ensures Lowest(lines, source, edits, |edits|) == AtOnce(lines, source, edits)
  {
    assert edits[0..] == edits;
  }

  // ---- the expected operations of a fixture ----------------------------------------------

  datatype OperationKind = Replace | Insert | Delete | Write

  datatype Operation = Operation(kind: OperationKind, startLine: int, endLine: Option<int>, text: string,
                                 before: bool)

  function OperationDepth(op: Operation): int { -op.startLine }

  /** The line edit an operation stands for. */
  function EditOf(op: Operation): (e: LineEdit)
    ensures e.startLine == op.startLine
  {
    if op.kind.Insert? then
      LineEdit(op.startLine, if op.before then op.startLine else op.startLine + 1, op.text, true)
    else
      LineEdit(op.startLine, if op.endLine.Some? && op.endLine.value != 0 then op.endLine.value else op.startLine,
               op.text, false)
  }

  /** Whole-file writes are no line edits. */
  function EditsOf(ops: seq<Operation>): seq<LineEdit> {
    if ops == [] then [] else EditsOfOne(ops[0]) + EditsOf(ops[1..])
  }

  function EditsOfOne(op: Operation): seq<LineEdit> { if op.kind.Write? then [] else [EditOf(op)] }

  lemma {:induction false} EditsOfAppend(a: seq<Operation>, b: seq<Operation>)
    ensures EditsOf(a + b) == EditsOf(a) + EditsOf(b)
  {
    if a == [] {
      assert a + b == b;
    } else {
      assert (a + b)[1..] == a[1..] + b;
      EditsOfAppend(a[1..], b);
    }
  }

  lemma {:induction false} NoneAbove(ops: seq<Operation>, bound: int)
    requires forall i :: 0 <= i < |ops| ==> bound < OperationDepth(ops[i])
    ensures forall i :: 0 <= i < |EditsOf(ops)| ==> bound < Depth(EditsOf(ops)[i])
  {
    if ops != [] { NoneAbove(ops[1..], bound); }
  }

  lemma EditsOfCons(op: Operation, ops: seq<Operation>)
    ensures EditsOf([op] + ops) == if op.kind.Write? then EditsOf(ops) else [EditOf(op)] + EditsOf(ops)
  {
    assert ([op] + ops)[1..] == ops;
  }

  lemma {:induction false} EditsOfInsert(ops: seq<Operation>, x: Operation)
    requires Sorting.SortedBy(ops, OperationDepth)
    ensures EditsOf(Sorting.Insert(ops, x, OperationDepth)) ==
            if x.kind.Write? then EditsOf(ops) else Sorting.Insert(EditsOf(ops), EditOf(x), Depth)
  {
    hide EditOf, EditsOf, Sorting.Insert;
    if ops == [] || OperationDepth(x) < OperationDepth(ops[0]) {
      Sorting.InsertFirst(ops, x, OperationDepth);
      EditsOfCons(x, ops);
      NoneAbove(ops, OperationDepth(x));
      if !x.kind.Write? { Sorting.InsertFirst(EditsOf(ops), EditOf(x), Depth); }
    } else {
      var first, rest := ops[0], ops[1..];
      assert ops == [first] + rest;
      EditsOfInsert(rest, x);
      Sorting.InsertLater(first, rest, x, OperationDepth);
      EditsOfCons(first, Sorting.Insert(rest, x, OperationDepth));
      EditsOfCons(first, rest);
      if !first.kind.Write? && !x.kind.Write? { Sorting.InsertLater(EditOf(first), EditsOf(rest), EditOf(x), Depth); }
    }
  }

  lemma {:induction false} EditsOfSort(ops: seq<Operation>)
    ensures EditsOf(Sorting.Sort(ops, OperationDepth)) == Sorting.Sort(EditsOf(ops), Depth)
    decreases |ops|
  {
    hide EditOf, EditsOf, Sorting.Insert, Sorting.Sort;
    if ops == [] {
      NothingToSort();
    } else {
      var front, last := ops[..|ops| - 1], ops[|ops| - 1];
      EditsOfSort(front);
      Sorting.SortSorts(front, OperationDepth);
      EditsOfInsert(Sorting.Sort(front, OperationDepth), last);
      assert ops == front + [last];
      Sorting.SortAppend(front, last, OperationDepth);
      EditsOfAppend(front, [last]);
      EditsOfLast(last);
      assert EditsOf(ops) == EditsOf(front) + EditsOfOne(last);
      if last.kind.Write? {
        assert EditsOf(ops) == EditsOf(front);
      } else {
        Sorting.SortAppend(EditsOf(front), EditOf(last), Depth);
      }
    }
  }

  lemma NothingToSort()
    ensures Sorting.Sort([], OperationDepth) == [] && EditsOf([]) == [] && Sorting.Sort([], Depth) == []
  {
  }

  lemma EditsOfLast(op: Operation)
    ensures EditsOf([op]) == EditsOfOne(op)
  {
  }

  lemma EditsSoFar(ops: seq<Operation>, k: nat)
    requires k < |ops|
    ensures var done := EditsOf(ops[..k]);
      && |done| <= |EditsOf(ops)|
      && if ops[k].kind.Write? then EditsOf(ops[..k + 1]) == done
         else |done| < |EditsOf(ops)| && EditsOf(ops)[|done|] == EditOf(ops[k])
              && |EditsOf(ops[..k + 1])| == |done| + 1
  {
    hide EditOf;
    assert ops[..k + 1] == ops[..k] + [ops[k]] && ops == ops[..k + 1] + ops[k + 1..];
    EditsOfAppend(ops[..k], [ops[k]]);
    EditsOfAppend(ops[..k + 1], ops[k + 1..]);
    assert EditsOf([ops[k]]) == EditsOfOne(ops[k]);
  }

  /** `apply_expected_operations`: the reference gives the same text as the applier. */
  method ApplyExpected(source: string, ops: seq<Operation>) returns (r: string)
    requires Clean(SplitLines(source), EditsOf(ops))
    ensures r == LineResult(source, EditsOf(ops))
  {
    hide Clean, AllValid, TopDown, Lowest, CutOfLines, SplitLines, EditOf, Sorting.Sort;
    var lines := SplitLines(source);
    ghost var given, edits := lines, EditsOf(ops);
    ghost var asc := Ascending(edits);
    BottomUp(lines, edits);
    var sorted := Sorting.Sort(ops, OperationDepth);
    EditsOfSort(ops);
    LowestNone(given, source, asc);
    for k := 0 to |sorted|
      invariant |EditsOf(sorted[..k])| <= |asc|
      invariant lines == Lowest(given, source, asc, |EditsOf(sorted[..k])|)
    {
      EditsSoFar(sorted, k);
      if !sorted[k].kind.Write? {
        NextUp(given, source, asc, |EditsOf(sorted[..k])|, lines);
        lines := SpliceLines(lines, source, EditOf(sorted[k]));
      }
    }
    assert sorted[..|sorted|] == sorted;
    LowestAll(given, source, asc);
    return Join(lines);
  }

  // ---- order and window -------------------------------------------------------------------

  /** A batch of line edits that does not clash means the same in any order. */
  lemma LineOrderDoesNotMatter(content: string, a: seq<LineEdit>, b: seq<LineEdit>)
    requires multiset(a) == multiset(b) && Clean(SplitLines(content), a)
    ensures Clean(SplitLines(content), b) && LineResult(content, a) == LineResult(content, b)
  {
    hide Disjoint, ValidBounds, SplitLines, AtOnce;
    var lines := SplitLines(content);
    forall i | 0 <= i < |b| ensures ValidBounds(|lines|, b[i]) { assert b[i] in multiset(a) && b[i] in a; }
    assert forall x, y :: Disjoint(x, y) ==> Disjoint(y, x) by { DisjointIsSymmetric(); }
    Sorting.PairwiseInAnyOrder(a, b, Disjoint);
    SameBottomUp(lines, a, b);
  }

  lemma FallsStrictly(lines: seq<string>, a: seq<LineEdit>)
    requires Clean(lines, a)
    ensures Sorting.StrictlyBy(Sorting.Sort(a, Depth), Depth)
  {
    hide Clean, Sorting.Sort;
    BottomUp(lines, a);
    var sorted, r := Sorting.Sort(a, Depth), Ascending(a);
    forall i, j | 0 <= i < j < |sorted| ensures Depth(sorted[i]) < Depth(sorted[j]) {
      assert r[|r| - 1 - j].startLine < r[|r| - 1 - i].startLine;
    }
  }

  lemma SameBottomUp(lines: seq<string>, a: seq<LineEdit>, b: seq<LineEdit>)
    requires multiset(a) == multiset(b) && Clean(lines, a) && Clean(lines, b)
    ensures Ascending(a) == Ascending(b)
  {
    hide Clean, Sorting.StrictlyBy;
    FallsStrictly(lines, a);
    FallsStrictly(lines, b);
    Sorting.SortPermutes(a, Depth);
    Sorting.SortPermutes(b, Depth);
    Sorting.OneListing(Sorting.Sort(a, Depth), Sorting.Sort(b, Depth), Depth);
  }

  lemma CutInWindow(lines: seq<string>, source: string, w: Window, e: LineEdit)
    requires ValidBounds(|lines|, e) && SeenLines(e, w) && 1 <= w.first <= w.last <= |lines|
    ensures w.first - 1 <= CutOfLines(lines, source, e).start && CutOfLines(lines, source, e).end <= w.last
  {
    assert e.insertion || Covers(e, e.startLine);
    assert e.startLine in Occupied(e);
    assert e.insertion || e.endLine in Occupied(e);
  }

  lemma JoinedStretches(content: string, lo: nat, hi: nat, r: seq<string>)
    requires lo <= hi <= |SplitLines(content)|
    requires var tail := |SplitLines(content)| - hi;
      && lo + tail <= |r| && r[..lo] == SplitLines(content)[..lo]
      && r[|r| - tail..] == SplitLines(content)[hi..]
    ensures LineStart(content, lo) <= LineStart(content, hi)
    ensures KeepsOutside(content, LineStart(content, lo), LineStart(content, hi), Join(r))
  {
    hide SplitLines, LineStart, Join;
    var end := |r| - (|SplitLines(content)| - hi);
    LineStartsAscend(content, lo, hi);
    LinesBefore(content, lo);
    LinesAfter(content, hi);
    assert r == r[..lo] + r[lo..end] + r[end..];
    JoinAppends(r[..lo] + r[lo..end], r[end..]);
    JoinAppends(r[..lo], r[lo..end]);
  }

  /** An accepted batch of line edits keeps everything outside the lines that were read. */
  lemma LineEditsStayInWindow(content: string, w: Window, edits: seq<LineEdit>)
    requires Clean(SplitLines(content), edits) && 1 <= w.first <= w.last <= |SplitLines(content)|
    requires forall i :: 0 <= i < |edits| ==> SeenLines(edits[i], w)
    ensures LineStart(content, w.first - 1) <= LineStart(content, w.last)
    ensures KeepsOutside(content, LineStart(content, w.first - 1), LineStart(content, w.last),
                         LineResult(content, edits))
  {
    hide SplitLines, LineStart, Join, SeenLines, ValidBounds, CutOfLines, Disjoint, KeepsOutside, Sorting.Sort;
    var lines, asc, sorted := SplitLines(content), Ascending(edits), Sorting.Sort(edits, Depth);
    BottomUp(lines, edits);
    Sorting.SortPermutes(edits, Depth);
    LineCutsAreOrdered(lines, content, asc);
    var cuts := LineCuts(lines, content, asc);
    forall i | 0 <= i < |cuts| ensures w.first - 1 <= cuts[i].start && cuts[i].end <= w.last {
      assert asc[i] in multiset(sorted) && asc[i] in edits;
      CutInWindow(lines, content, w, asc[i]);
    }
    StaysInside(lines, 0, cuts, w.first - 1, w.last);
    assert lines[0..w.first - 1] == lines[..w.first - 1];
    JoinedStretches(content, w.first - 1, w.last, AtOnce(lines, content, asc));
  }
}
