/** Lines of a source text: `str.splitlines(keepends=True)` beside counting `\n` characters. */
module SourceLines {

  /** The characters `str.splitlines` breaks at. */
  predicate IsBreak(c: char) {
    c == '\n' || c == '\r' || c == '\U{0B}' || c == '\U{0C}' || c == '\U{1C}' || c == '\U{1D}' || c == '\U{1E}'
    || c == '\U{85}' || c == '\U{2028}' || c == '\U{2029}'
  }

  /** Length of the first line with its end; `\r\n` is one end. */
  function FirstLine(s: string): (n: nat)
    ensures n <= |s| && (s != "" ==> n > 0)
  {
    if s == "" then 0
    else if s[0] == '\r' && |s| > 1 && s[1] == '\n' then 2
    else if IsBreak(s[0]) then 1
    else 1 + FirstLine(s[1..])
  }

  function SplitLines(s: string): (lines: seq<string>)
    ensures forall k :: 0 <= k < |lines| ==> lines[k] != ""
    decreases |s|
  {
    if s == "" then [] else [s[..FirstLine(s)]] + SplitLines(s[FirstLine(s)..])
  }

  function Join(lines: seq<string>): string {
    if lines == [] then "" else lines[0] + Join(lines[1..])
  }

  lemma {:induction false} JoinAppends(a: seq<string>, b: seq<string>)
    ensures Join(a + b) == Join(a) + Join(b)
  {
    if a == [] {
      assert a + b == b;
    } else {
      assert (a + b)[1..] == a[1..] + b;
      JoinAppends(a[1..], b);
    }
  }

  lemma {:induction false} SplitJoins(s: string)
    ensures Join(SplitLines(s)) == s
    decreases |s|
  {
    if s != "" {
      SplitJoins(s[FirstLine(s)..]);
      assert s == s[..FirstLine(s)] + s[FirstLine(s)..];
    }
  }

  /** Offset at which the line with index `k` starts; the end of the text when there is none. */
  function LineStart(s: string, k: nat): (at: nat)
    ensures at <= |s|
    decreases k
  {
    if k == 0 || s == "" then 0 else FirstLine(s) + LineStart(s[FirstLine(s)..], k - 1)
  }

  lemma {:induction false} LinesBefore(s: string, k: nat)
    requires k <= |SplitLines(s)|
    ensures Join(SplitLines(s)[..k]) == s[..LineStart(s, k)]
    decreases k
  {
    if k > 0 {
      var n, rest := FirstLine(s), s[FirstLine(s)..];
      LinesBefore(rest, k - 1);
      assert SplitLines(s)[..k] == [s[..n]] + SplitLines(rest)[..k - 1];
      assert s[..LineStart(s, k)] == s[..n] + rest[..LineStart(rest, k - 1)];
    }
  }

  lemma {:induction false} LinesAfter(s: string, k: nat)
    requires k <= |SplitLines(s)|
    ensures Join(SplitLines(s)[k..]) == s[LineStart(s, k)..]
    decreases k
  {
    if k == 0 {
      assert SplitLines(s)[0..] == SplitLines(s);
      SplitJoins(s);
    } else {
      var rest := s[FirstLine(s)..];
      LinesAfter(rest, k - 1);
      assert SplitLines(s)[k..] == SplitLines(rest)[k - 1..];
      assert s[LineStart(s, k)..] == rest[LineStart(rest, k - 1)..];
    }
  }

  /** `line_block`: the text of lines `first` to `last`, counted from 1. */
  function LineBlock(s: string, first: nat, last: nat): string
    requires 1 <= first <= last <= |SplitLines(s)|
  {
    Join(SplitLines(s)[first - 1..last])
  }

  lemma LineStartsAscend(s: string, j: nat, k: nat)
    requires j <= k
    ensures LineStart(s, j) <= LineStart(s, k)
  {
    if j > 0 && s != "" { LineStartsAscend(s[FirstLine(s)..], j - 1, k - 1); }
  }

  /** The block that was read is the stretch of the text between two line starts. */
  lemma BlockIsStretch(s: string, first: nat, last: nat)
    requires 1 <= first <= last <= |SplitLines(s)|
    ensures LineStart(s, first - 1) <= LineStart(s, last)
    ensures LineBlock(s, first, last) == s[LineStart(s, first - 1)..LineStart(s, last)]
  {
    var lines := SplitLines(s);
    LineStartsAscend(s, first - 1, last);
    LinesBefore(s, first - 1);
    LinesBefore(s, last);
    JoinAppends(lines[..first - 1], lines[first - 1..last]);
    assert lines[..last] == lines[..first - 1] + lines[first - 1..last];
    var a, b := LineStart(s, first - 1), LineStart(s, last);
    assert s[..b] == s[..a] + LineBlock(s, first, last);
    assert s[..b] == s[..a] + s[a..b];
    assert LineBlock(s, first, last) == s[..b][a..];
  }

  // ---- counting newlines --------------------------------------------------------------

  function Newlines(s: string): nat {
    if s == "" then 0 else (if s[0] == '\n' then 1 else 0) + Newlines(s[1..])
  }

  /** Length of the text up to and including the first `\n`. */
  function FirstNewline(s: string): (n: nat)
    ensures n <= |s| && (s != "" ==> n > 0)
  {
    if s == "" then 0 else if s[0] == '\n' then 1 else 1 + FirstNewline(s[1..])
  }

  /** Offset just after the `k`-th `\n`; the end of the text when there are fewer. */
  function NewlineStart(s: string, k: nat): (at: nat)
    ensures at <= |s|
    decreases k
  {
    if k == 0 || s == "" then 0 else FirstNewline(s) + NewlineStart(s[FirstNewline(s)..], k - 1)
  }

  lemma {:induction false} NewlinesAppend(a: string, b: string)
    ensures Newlines(a + b) == Newlines(a) + Newlines(b)
  {
    if a == "" {
      assert a + b == b;
    } else {
      assert (a + b)[1..] == a[1..] + b;
      NewlinesAppend(a[1..], b);
    }
  }

  /** A line without `\n` before its end. */
  lemma {:induction false} NoneBefore(s: string, i: nat)
    requires i < FirstNewline(s)
    ensures Newlines(s[..i]) == 0
  {
    if i > 0 {
      NoneBefore(s[1..], i - 1);
      assert s[..i][1..] == s[1..][..i - 1];
    }
  }

  lemma {:induction false} OneAt(s: string)
    requires s != ""
    ensures Newlines(s[..FirstNewline(s)]) == if s[FirstNewline(s) - 1] == '\n' then 1 else 0
    ensures s[FirstNewline(s) - 1] != '\n' ==> FirstNewline(s) == |s|
  {
    if s[0] != '\n' && |s| > 1 {
      OneAt(s[1..]);
      assert s[..FirstNewline(s)][1..] == s[1..][..FirstNewline(s) - 1];
    }
  }

  /** The position `i` lies in or after the line with index `k`, counting `\n`, exactly when it
      is not before the offset at which that line starts. */
  lemma {:induction false} CountMeetsOffset(s: string, k: nat, i: nat)
    requires i < |s|
    ensures Newlines(s[..i]) >= k <==> i >= NewlineStart(s, k)
    decreases k
  {
    hide Newlines, FirstNewline;
    if k > 0 {
      var n := FirstNewline(s);
      assert NewlineStart(s, k) == n + NewlineStart(s[n..], k - 1);
      if i < n {
        NoneBefore(s, i);
      } else {
        OneAt(s);
        CountMeetsOffset(s[n..], k - 1, i - n);
        assert s[..i] == s[..n] + s[n..][..i - n];
        NewlinesAppend(s[..n], s[n..][..i - n]);
      }
    }
  }

  // ---- the two ways of counting -----------------------------------------------------------

  lemma {:induction false} NewlineIsBreak(s: string)
    ensures FirstLine(s) <= FirstNewline(s)
  {
    if s != "" && !IsBreak(s[0]) { NewlineIsBreak(s[1..]); }
  }

  lemma {:induction false} DropsFromLine(s: string, n: nat)
    requires n < FirstNewline(s)
    ensures FirstNewline(s[n..]) == FirstNewline(s) - n
  {
    if n > 0 {
      DropsFromLine(s[1..], n - 1);
      assert s[n..] == s[1..][n - 1..];
    } else {
      assert s[0..] == s;
    }
  }

  lemma {:induction false} NewlineStartsAscend(s: string, k: nat)
    ensures NewlineStart(s, k) <= NewlineStart(s, k + 1)
    decreases k
  {
    if k > 0 && s != "" { NewlineStartsAscend(s[FirstNewline(s)..], k - 1); }
  }

  /** A line counted by `\n` never starts before the line of that number. */
  lemma {:induction false} LinesComeFirst(s: string, k: nat)
    ensures LineStart(s, k) <= NewlineStart(s, k)
    decreases k
  {
    if k > 0 && s != "" {
      var n, m := FirstLine(s), FirstNewline(s);
      NewlineIsBreak(s);
      LinesComeFirst(s[n..], k - 1);
      if n < m {
        DropsFromLine(s, n);
        assert s[n..][m - n..] == s[m..];
        NewlineStartsAscend(s[n..], k - 1);
      }
    }
  }

  /** The only line break is `\n`, optionally preceded by `\r`. */
  ghost predicate Plain(s: string) { forall i :: 0 <= i < |s| ==> PlainAt(s, i) }

  predicate PlainAt(s: string, i: nat)
    requires i < |s|
  {
    IsBreak(s[i]) && s[i] != '\n' ==> s[i] == '\r' && i + 1 < |s| && s[i + 1] == '\n'
  }

  lemma PlainTail(s: string, n: nat)
    requires Plain(s) && n <= |s|
    ensures Plain(s[n..])
  {
    forall i | 0 <= i < |s[n..]| ensures PlainAt(s[n..], i) { assert PlainAt(s, n + i); }
  }

  lemma {:induction false} PlainFirst(s: string)
    requires Plain(s)
    ensures FirstLine(s) == FirstNewline(s)
  {
    if s != "" {
      assert PlainAt(s, 0);
      if !IsBreak(s[0]) {
        PlainTail(s, 1);
        PlainFirst(s[1..]);
      } else if s[0] == '\r' {
        assert s[1..][0] == s[1];
        assert FirstNewline(s[1..]) == 1 && FirstNewline(s) == 2;
      } else {
        assert FirstNewline(s) == 1;
      }
    }
  }

  /** In a text with plain line breaks both ways of counting agree on every line. */
  lemma {:induction false} PlainStarts(s: string, k: nat)
    requires Plain(s)
    ensures LineStart(s, k) == NewlineStart(s, k)
    decreases k
  {
    if k > 0 && s != "" {
      PlainFirst(s);
      PlainTail(s, FirstLine(s));
      PlainStarts(s[FirstLine(s)..], k - 1);
    }
  }

  // ---- line ends of new text -------------------------------------------------------------

  predicate At(s: string, part: string, i: nat) { i + |part| <= |s| && s[i..i + |part|] == part }

  predicate Contains(s: string, part: string) { exists i :: 0 <= i <= |s| && At(s, part, i) }

  /** `_line_ending`: the style of the text's line ends, else the fallback. */
  function LineEnding(s: string, fallback: string): string {
    if Contains(s, "\r\n") then "\r\n"
    else if '\n' in s then "\n"
    else if '\r' in s then "\r"
    else fallback
  }

  predicate EndsLine(s: string) { s != "" && (s[|s| - 1] == '\n' || s[|s| - 1] == '\r') }

  /** `_replacement_text`: the new text, its line end completed when the removed text had one. */
  function ReplacementText(text: string, removed: string, source: string): string {
    if text == "" || EndsLine(text) || !EndsLine(removed) then text
    else text + LineEnding(removed, LineEnding(source, "\n"))
  }

  /** An inserted line always ends. */
  function InsertedText(text: string, source: string): string {
    if text != "" && !EndsLine(text) then text + LineEnding(source, "\n") else text
  }
}
