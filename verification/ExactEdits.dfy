/** A batch of exact-string edits: every target occurs once, was seen, and no two overlap. */
module ExactEdits {
  import opened Splices
  import opened SourceLines
  import Sorting

  const MAX_EDITS := 20

  /** `old_string` and `new_string`. */
  datatype Edit = Edit(target: string, text: string)

  /** The lines that were read, counted from 1. */
  datatype Window = Window(first: nat, last: nat)

  /** `str.find`: the first occurrence at or after `from`, else -1. */
  function Find(s: string, part: string, from: nat): (r: int)
    ensures r >= 0 ==> from <= r && At(s, part, r)
    ensures r < 0 ==> r == -1 && forall i :: i >= from ==> !At(s, part, i)
    ensures r >= 0 ==> forall i :: from <= i < r ==> !At(s, part, i)
    decreases |s| - from
  {
    if from + |part| > |s| then -1
    else if At(s, part, from) then from
    else Find(s, part, from + 1)
  }

  predicate Once(s: string, part: string) {
    var at := Find(s, part, 0);
    at >= 0 && Find(s, part, at + 1) < 0
  }

  /** Two searches decide whether there is one occurrence. */
  lemma OnceMeans(s: string, part: string)
    ensures Once(s, part) <==> exists i :: At(s, part, i) && forall j :: At(s, part, j) ==> j == i
  {
    var at := Find(s, part, 0);
    if Once(s, part) {
      assert At(s, part, at);
      forall j | At(s, part, j) ensures j == at { }
    } else if at >= 0 {
      var next := Find(s, part, at + 1);
      assert At(s, part, at) && At(s, part, next) && next != at;
    }
  }

  function Max(a: int, b: int): int { if a >= b then a else b }

  /** The lines an occurrence touches, counted by `\n`, all lie in the window. */
  predicate Seen(content: string, w: Window, start: nat, target: string)
    requires start <= |content|
  {
    var firstLine := Newlines(content[..start]) + 1;
    var touched := Max(1, Newlines(target) + if target != "" && target[|target| - 1] == '\n' then 0 else 1);
    w.first <= firstLine && firstLine + touched - 1 <= w.last
  }

  lemma Stretch(content: string, start: nat, target: string, front: string)
    requires At(content, target, start) && front <= target
    ensures content[..start + |front|] == content[..start] + front
  {
    assert front == target[..|front|] == content[start..start + |target|][..|front|];
    assert content[..start + |front|] == content[..start] + content[start..start + |front|];
  }

  lemma Inner(s: string, a: nat, i: nat, j: nat, b: nat)
    requires a <= i <= j <= b <= |s|
    ensures s[a..b][i - a..j - a] == s[i..j]
  {
    forall k | 0 <= k < j - i ensures s[a..b][i - a..j - a][k] == s[i..j][k] {
      assert s[a..b][i - a + k] == s[i + k];
    }
  }

  /** The line arithmetic is an interval test on offsets. */
  lemma SeenIsInside(content: string, w: Window, start: nat, target: string)
    requires target != "" && At(content, target, start) && start + |target| <= |content| && 1 <= w.first
    ensures Seen(content, w, start, target) <==>
      NewlineStart(content, w.first - 1) <= start && start + |target| <= NewlineStart(content, w.last)
  {
    hide Newlines, NewlineStart, At;
    var last := start + |target| - 1;
    var front, c := target[..|target| - 1], target[|target| - 1];
    CountMeetsOffset(content, w.first - 1, start);
    CountMeetsOffset(content, w.last, last);
    assert target == front + [c];
    NewlinesAppend(front, [c]);
    OneCharacter(c);
    assert Newlines(target) == Newlines(front) + if c == '\n' then 1 else 0;
    Stretch(content, start, target, front);
    assert content[..last] == content[..start] + front;
    NewlinesAppend(content[..start], front);
  }

  lemma OneCharacter(c: char)
    ensures Newlines([c]) == if c == '\n' then 1 else 0
  {
  }

  // ---- what a batch means -----------------------------------------------------------------

  function CutOf(content: string, e: Edit): Cut<char> {
    var at := Find(content, e.target, 0);
    var start := if at < 0 then 0 else at;
    Cut(start, start + |e.target|, e.text)
  }

  function Cuts(content: string, edits: seq<Edit>): seq<Cut<char>> {
    Sorting.Map(edits, e => CutOf(content, e))
  }

  /** The edit's target occurs once and every line it touches was seen. */
  predicate Placed(content: string, w: Window, e: Edit) {
    e.target != "" && Once(content, e.target) && Seen(content, w, Find(content, e.target, 0), e.target)
  }

  ghost predicate Placeable(content: string, w: Window, edits: seq<Edit>) {
    (forall i :: 0 <= i < |edits| ==> Placed(content, w, edits[i])) && PairwiseApart(Cuts(content, edits))
  }

  function Listing(content: string, edits: seq<Edit>): seq<Cut<char>> {
    Sorting.Sort(Cuts(content, edits), Start)
  }

  lemma CutFits(content: string, w: Window, e: Edit)
    requires Placed(content, w, e)
    ensures CutOf(content, e).start < CutOf(content, e).end <= |content|
  {
  }

  lemma CutsFit(content: string, w: Window, edits: seq<Edit>)
    requires forall i :: 0 <= i < |edits| ==> Placed(content, w, edits[i])
    ensures var cuts := Listing(content, edits);
      Within(|content|, cuts) && NonEmpty(cuts) && SortedByStart(cuts)
    ensures multiset(Listing(content, edits)) == multiset(Cuts(content, edits))
  {
    hide Placed, CutOf, Sorting.Sort;
    var cuts, all := Listing(content, edits), Cuts(content, edits);
    Sorting.SortPermutes(all, Start);
    Sorting.SortSorts(all, Start);
    forall i | 0 <= i < |cuts| ensures cuts[i].start < cuts[i].end <= |content| {
      assert cuts[i] in multiset(cuts) && cuts[i] in all;
      var k :| 0 <= k < |all| && all[k] == cuts[i];
      CutFits(content, w, edits[k]);
    }
    forall i, j | 0 <= i < j < |cuts| ensures cuts[i].start <= cuts[j].start {
      assert Start(cuts[i]) <= Start(cuts[j]);
    }
  }

  lemma ListingIsOrdered(content: string, w: Window, edits: seq<Edit>)
    requires forall i :: 0 <= i < |edits| ==> Placed(content, w, edits[i])
    ensures Placeable(content, w, edits) <==> Ordered(Listing(content, edits))
  {
    var cuts, all := Listing(content, edits), Cuts(content, edits);
    CutsFit(content, w, edits);
    OrderedIsApart(cuts);
    if PairwiseApart(all) { ApartInAnyOrder(all, cuts); }
    if PairwiseApart(cuts) { ApartInAnyOrder(cuts, all); }
  }

  /** Every target replaced at once: what the batch asks for. */
  ghost function Outcome(content: string, w: Window, edits: seq<Edit>): string
    requires Placeable(content, w, edits)
  {
    CutsFit(content, w, edits);
    ListingIsOrdered(content, w, edits);
    Replaced(content, 0, Listing(content, edits))
  }

  predicate HasEmptyTarget(edits: seq<Edit>) { exists e :: e in edits && e.target == "" }

  /** The batches that succeed on a fresh snapshot. An empty target may only fill an empty file. */
  ghost predicate Accepted(content: string, w: Window, edits: seq<Edit>) {
    0 < |edits| <= MAX_EDITS &&
    if HasEmptyTarget(edits) then |edits| == 1 && content == "" && edits[0].text != ""
    else Placeable(content, w, edits) && Outcome(content, w, edits) != content
  }

  ghost function Proposed(content: string, w: Window, edits: seq<Edit>): string
    requires Accepted(content, w, edits)
  {
    if HasEmptyTarget(edits) then edits[0].text else Outcome(content, w, edits)
  }

  // ---- the order of the edits --------------------------------------------------------------

  lemma SameMembers(a: seq<Edit>, b: seq<Edit>)
    requires multiset(a) == multiset(b)
    ensures |a| == |b| && forall e :: e in a <==> e in b
  {
    assert |a| == |multiset(a)| == |multiset(b)| == |b|;
    forall e ensures e in a <==> e in b { assert e in multiset(a) <==> e in multiset(b); }
  }

  lemma PlaceableInAnyOrder(content: string, w: Window, a: seq<Edit>, b: seq<Edit>)
    requires multiset(a) == multiset(b) && Placeable(content, w, a)
    ensures Placeable(content, w, b) && Outcome(content, w, a) == Outcome(content, w, b)
  {
    SameMembers(a, b);
    forall i | 0 <= i < |b| ensures Placed(content, w, b[i]) {
      assert b[i] in a;
    }
    Sorting.MapMultiset(a, b, e => CutOf(content, e));
    ApartInAnyOrder(Cuts(content, a), Cuts(content, b));
    CutsFit(content, w, a);
    CutsFit(content, w, b);
    ListingIsOrdered(content, w, a);
    ListingIsOrdered(content, w, b);
    OneOrder(Listing(content, a), Listing(content, b));
  }

  /** Success and result do not depend on the order in which the edits are listed. */
  lemma OrderDoesNotMatter(content: string, w: Window, a: seq<Edit>, b: seq<Edit>)
    requires multiset(a) == multiset(b) && Accepted(content, w, a)
    ensures Accepted(content, w, b) && Proposed(content, w, a) == Proposed(content, w, b)
  {
    SameMembers(a, b);
    if HasEmptyTarget(a) {
      assert b[0] in a && a[0] == b[0];
    } else {
      PlaceableInAnyOrder(content, w, a, b);
    }
  }

  // ---- confinement to the window ----------------------------------------------------------

  /** Everything before `lo` and from `hi` on is byte for byte what it was. */
  predicate KeepsOutside(content: string, lo: nat, hi: nat, result: string)
    requires lo <= hi <= |content|
  {
    var tail := |content| - hi;
    lo + tail <= |result| && result[..lo] == content[..lo] && result[|result| - tail..] == content[hi..]
  }

  lemma NewlineStartsRise(s: string, j: nat, k: nat)
    requires j <= k
    ensures NewlineStart(s, j) <= NewlineStart(s, k)
  {
    if j < k {
      NewlineStartsRise(s, j, k - 1);
      NewlineStartsAscend(s, k - 1);
    }
  }

  lemma CutsInside(content: string, w: Window, edits: seq<Edit>)
    requires 1 <= w.first && forall i :: 0 <= i < |edits| ==> Placed(content, w, edits[i])
    ensures forall i :: 0 <= i < |Listing(content, edits)| ==>
      && NewlineStart(content, w.first - 1) <= Listing(content, edits)[i].start
      && Listing(content, edits)[i].end <= NewlineStart(content, w.last)
  {
    var cuts, all := Listing(content, edits), Cuts(content, edits);
    CutsFit(content, w, edits);
    forall i | 0 <= i < |cuts|
      ensures NewlineStart(content, w.first - 1) <= cuts[i].start && cuts[i].end <= NewlineStart(content, w.last)
    {
      assert cuts[i] in multiset(cuts) && cuts[i] in all;
      var k :| 0 <= k < |all| && all[k] == cuts[i];
      assert Placed(content, w, edits[k]);
      SeenIsInside(content, w, all[k].start, edits[k].target);
    }
  }

  /** A batch changes nothing outside the window, when its lines are counted by `\n`. */
  lemma InsideNewlineWindow(content: string, w: Window, edits: seq<Edit>)
    requires 1 <= w.first <= w.last && Placeable(content, w, edits)
    ensures NewlineStart(content, w.first - 1) <= NewlineStart(content, w.last)
    ensures KeepsOutside(content, NewlineStart(content, w.first - 1), NewlineStart(content, w.last),
                         Outcome(content, w, edits))
  {
    hide NewlineStart, Placed, Listing, Cuts, PairwiseApart;
    NewlineStartsRise(content, w.first - 1, w.last);
    CutsFit(content, w, edits);
    ListingIsOrdered(content, w, edits);
    CutsInside(content, w, edits);
    StaysInside(content, 0, Listing(content, edits),
                NewlineStart(content, w.first - 1), NewlineStart(content, w.last));
  }

  /** Everything outside the lines that were read, as `read` cuts them out of the text, is kept. */
  predicate KeepsUnread(content: string, w: Window, result: string)
    requires 1 <= w.first <= w.last <= |SplitLines(content)|
  {
    LineStartsAscend(content, w.first - 1, w.last);
    KeepsOutside(content, LineStart(content, w.first - 1), LineStart(content, w.last), result)
  }

  /** What the batch does stays in the lines that were read. */
  ghost predicate KeepsRest(content: string, w: Window, edits: seq<Edit>)
    requires 1 <= w.first <= w.last <= |SplitLines(content)|
  {
    Accepted(content, w, edits) ==> KeepsUnread(content, w, Proposed(content, w, edits))
  }

  ghost predicate Confined(content: string, w: Window)
    requires 1 <= w.first <= w.last <= |SplitLines(content)|
  {
    forall edits :: KeepsRest(content, w, edits)
  }

  lemma Narrower(content: string, lo: nat, hi: nat, a: nat, b: nat, result: string)
    requires lo <= a <= b <= hi <= |content| && KeepsOutside(content, a, b, result)
    ensures KeepsOutside(content, lo, hi, result)
  {
    var tail := |content| - hi;
    assert result[..lo] == result[..a][..lo];
    assert result[|result| - tail..] == result[|result| - (|content| - b)..][hi - b..];
  }

  /** The whole of the window as one target. */
  function WholeWindow(content: string, w: Window): string
    requires 1 <= w.first <= w.last
  {
    NewlineStartsRise(content, w.first - 1, w.last);
    content[NewlineStart(content, w.first - 1)..NewlineStart(content, w.last)]
  }

  lemma PartOfPart(content: string, stretch: string, j: nat, part: string, k: nat)
    requires At(content, stretch, j) && At(stretch, part, k)
    ensures At(content, part, j + k)
  {
    forall i | 0 <= i < |part| ensures content[j + k + i] == part[i] {
      assert part[i] == stretch[k..k + |part|][i] == stretch[k + i];
      assert content[j..j + |stretch|][k + i] == content[j + k + i];
    }
    assert content[j + k..j + k + |part|] == part;
  }

  /** A stretch around a part that occurs once occurs once itself. */
  lemma StretchOccursOnce(content: string, a: nat, stretch: string, part: string, k: nat)
    requires At(content, stretch, a) && At(stretch, part, k) && Once(content, part)
    ensures Once(content, stretch)
  {
    hide Find, Once, At;
    OnceMeans(content, part);
    OnceMeans(content, stretch);
    PartOfPart(content, stretch, a, part, k);
    forall j | At(content, stretch, j) ensures j == a {
      PartOfPart(content, stretch, j, part, k);
    }
  }

  /** In a text that is not empty only placed batches are accepted. */
  lemma AcceptedIsPlaced(content: string, w: Window, edits: seq<Edit>)
    requires content != "" && Accepted(content, w, edits)
    ensures edits != [] && Placeable(content, w, edits)
    ensures Proposed(content, w, edits) == Outcome(content, w, edits)
  {
    hide Placeable, Outcome;
  }

  lemma AcceptedNeedsUniqueWindow(content: string, w: Window, edits: seq<Edit>)
    requires 1 <= w.first <= w.last && content != "" && Accepted(content, w, edits)
    ensures Once(content, WholeWindow(content, w))
  {
    hide NewlineStart, Seen, Newlines, Find, Accepted, Outcome;
    AcceptedIsPlaced(content, w, edits);
    NewlineStartsRise(content, w.first - 1, w.last);
    var target := edits[0].target;
    assert Placed(content, w, edits[0]);
    var a, at, whole := NewlineStart(content, w.first - 1), Find(content, target, 0), WholeWindow(content, w);
    SeenIsInside(content, w, at, target);
    Inner(content, a, at, at + |target|, NewlineStart(content, w.last));
    StretchOccursOnce(content, a, whole, target, at - a);
  }

  /** One edit that replaces a unique stretch of the window by one character. */
  lemma OneEdit(content: string, w: Window, a: nat, b: nat, c: char)
    requires a < b <= |content| && Once(content, content[a..b]) && Seen(content, w, a, content[a..b])
    requires content[b - 1] != c
    ensures Accepted(content, w, [Edit(content[a..b], [c])])
    ensures Proposed(content, w, [Edit(content[a..b], [c])]) == content[..a] + [c] + content[b..]
  {
    hide Seen;
    var edits := [Edit(content[a..b], [c])];
    OnceMeans(content, content[a..b]);
    assert At(content, content[a..b], a) && Find(content, content[a..b], 0) == a;
    assert Placed(content, w, edits[0]);
    assert Cuts(content, edits) == [Cut(a, b, [c])];
    Sorting.SortedStays(Cuts(content, edits), Start);
    assert Replaced(content, b, []) == content[b..];
    assert content[0..a] == content[..a];
    var result := Outcome(content, w, edits);
    assert result == content[..a] + [c] + content[b..];
    assert result[a] == c;
    assert |result| == |content| ==> a == b - 1;
  }

  lemma LastCharacterLost(content: string, a: nat, b: nat, c: char, lo: nat, hi: nat)
    requires a < b <= |content| && content[b - 1] != c && lo <= hi < b
    ensures !KeepsOutside(content, lo, hi, content[..a] + [c] + content[b..])
  {
    var result, tail := content[..a] + [c] + content[b..], |content| - hi;
    if lo + tail <= |result| {
      assert result[|result| - tail..][b - 1 - hi] == result[a];
      assert content[hi..][b - 1 - hi] == content[b - 1];
    }
  }

  lemma EmptyIsEverywhere(content: string)
    requires content != ""
    ensures !Once(content, "")
  {
    assert At(content, "", 0) && At(content, "", 1);
  }

  /** When the window goes on past `hi`, counting by `\n`, rewriting all of it is accepted and does
      not keep what follows `hi`. */
  lemma RewritesWindow(content: string, w: Window, lo: nat, hi: nat) returns (edits: seq<Edit>)
    requires 1 <= w.first <= w.last && Once(content, WholeWindow(content, w))
    requires lo <= hi < NewlineStart(content, w.last)
    ensures Accepted(content, w, edits)
    ensures !KeepsOutside(content, lo, hi, Proposed(content, w, edits))
  {
    hide NewlineStart, Seen, Newlines, Accepted, Proposed, KeepsOutside;
    NewlineStartsRise(content, w.first - 1, w.last);
    var a, b := NewlineStart(content, w.first - 1), NewlineStart(content, w.last);
    var c := if content[b - 1] == 'a' then 'b' else 'a';
    EmptyIsEverywhere(content);
    assert WholeWindow(content, w) != "";
    assert At(content, content[a..b], a);
    SeenIsInside(content, w, a, content[a..b]);
    edits := [Edit(content[a..b], [c])];
    OneEdit(content, w, a, b, c);
    LastCharacterLost(content, a, b, c, lo, hi);
  }

  lemma StaysInWindow(content: string, w: Window, edits: seq<Edit>)
    requires 1 <= w.first <= w.last && content != "" && Accepted(content, w, edits)
    requires LineStart(content, w.last) == NewlineStart(content, w.last) || !Once(content, WholeWindow(content, w))
    ensures LineStart(content, w.first - 1) <= LineStart(content, w.last)
    ensures KeepsOutside(content, LineStart(content, w.first - 1), LineStart(content, w.last),
                         Proposed(content, w, edits))
  {
    hide NewlineStart, LineStart, Accepted, Proposed, Placeable, Outcome, KeepsOutside, Once, WholeWindow;
    LineStartsAscend(content, w.first - 1, w.last);
    LinesComeFirst(content, w.first - 1);
    AcceptedNeedsUniqueWindow(content, w, edits);
    AcceptedIsPlaced(content, w, edits);
    InsideNewlineWindow(content, w, edits);
    Narrower(content, LineStart(content, w.first - 1), LineStart(content, w.last),
             NewlineStart(content, w.first - 1), NewlineStart(content, w.last), Proposed(content, w, edits));
  }

  lemma EscapesWindow(content: string, w: Window)
    requires 1 <= w.first <= w.last <= |SplitLines(content)|
    requires LineStart(content, w.last) < NewlineStart(content, w.last) && Once(content, WholeWindow(content, w))
    ensures !Confined(content, w)
  {
    hide NewlineStart, LineStart, SplitLines, Accepted, Proposed, Once, KeepsOutside, WholeWindow;
    LineStartsAscend(content, w.first - 1, w.last);
    var edits := RewritesWindow(content, w, LineStart(content, w.first - 1), LineStart(content, w.last));
    assert !KeepsRest(content, w, edits);
  }

  lemma BatchStays(content: string, w: Window, edits: seq<Edit>)
    requires 1 <= w.first <= w.last <= |SplitLines(content)|
    requires LineStart(content, w.last) == NewlineStart(content, w.last) || !Once(content, WholeWindow(content, w))
    ensures KeepsRest(content, w, edits)
  {
    assert content != "";
    hide NewlineStart, LineStart, SplitLines, Accepted, Proposed, Once, KeepsOutside, WholeWindow;
    if Accepted(content, w, edits) { StaysInWindow(content, w, edits); }
  }

  lemma KeepsToWindow(content: string, w: Window)
    requires 1 <= w.first <= w.last <= |SplitLines(content)|
    requires LineStart(content, w.last) == NewlineStart(content, w.last) || !Once(content, WholeWindow(content, w))
    ensures Confined(content, w)
  {
    hide NewlineStart, LineStart, SplitLines, Accepted, Proposed, Once, KeepsOutside, WholeWindow, KeepsRest;
    forall edits ensures KeepsRest(content, w, edits) { BatchStays(content, w, edits); }
  }

  /** Whether the text outside the lines that were read is safe from every batch: it is exactly
      when both ways of counting end the window at one place, or when the stretch the window
      covers counting by `\n` is not unique in the text, so that no batch is accepted at all. */
  lemma ConfinedExactly(content: string, w: Window)
    requires 1 <= w.first <= w.last <= |SplitLines(content)|
    ensures Confined(content, w) <==>
      LineStart(content, w.last) == NewlineStart(content, w.last) || !Once(content, WholeWindow(content, w))
  {
    hide NewlineStart, LineStart, SplitLines, Once, WholeWindow, Confined;
    LinesComeFirst(content, w.last);
    if LineStart(content, w.last) == NewlineStart(content, w.last) || !Once(content, WholeWindow(content, w)) {
      KeepsToWindow(content, w);
    } else {
      EscapesWindow(content, w);
    }
  }

  /** In a text whose only line break is `\n`, or `\r\n`, every batch stays in the window. */
  lemma PlainIsConfined(content: string, w: Window)
    requires 1 <= w.first <= w.last <= |SplitLines(content)| && Plain(content)
    ensures Confined(content, w)
  {
    PlainStarts(content, w.last);
    ConfinedExactly(content, w);
  }
}
