/** String operations of the project scripts: trimming as ECMAScript does it, and splitting. */
module ScriptText {
  /** White space and line terminators that `trim` removes. */
  predicate IsSpace(c: char) {
    '\t' <= c <= '\r' || c == ' ' || c == '\U{A0}' || c == '\U{1680}' || '\U{2000}' <= c <= '\U{200A}'
    || c == '\U{2028}' || c == '\U{2029}' || c == '\U{202F}' || c == '\U{205F}' || c == '\U{3000}' || c == '\U{FEFF}'
  }

  function TrimStart(s: string): (r: string)
    ensures r != "" ==> !IsSpace(r[0])
  {
    if s != "" && IsSpace(s[0]) then TrimStart(s[1..]) else s
  }

  function TrimEnd(s: string): (r: string)
    ensures r != "" ==> !IsSpace(r[|r| - 1])
    ensures r <= s
  {
    if s != "" && IsSpace(s[|s| - 1]) then TrimEnd(s[..|s| - 1]) else s
  }

  /** Not surrounded by white space. */
  predicate Trimmed(s: string) { s != "" ==> !IsSpace(s[0]) && !IsSpace(s[|s| - 1]) }

  function Trim(s: string): (r: string)
    ensures Trimmed(r)
  {
    var t := TrimStart(s);
    var r := TrimEnd(t);
    assert r != "" ==> r[0] == t[0];
    r
  }

  lemma TrimmedStays(s: string)
    requires Trimmed(s)
    ensures TrimStart(s) == s && TrimEnd(s) == s && Trim(s) == s
  {
  }

  lemma {:induction false} TrimIsPart(s: string)
    ensures |TrimStart(s)| <= |s| && TrimStart(s) == s[|s| - |TrimStart(s)|..]
    ensures forall c :: c in Trim(s) ==> c in s
  {
    if s != "" && IsSpace(s[0]) { TrimIsPart(s[1..]); }
    assert forall c :: c in TrimStart(s) ==> c in s;
    assert TrimEnd(TrimStart(s)) <= TrimStart(s);
  }

  /** `indexOf`: the first place of the character, or -1. */
  function IndexOf(s: string, c: char): (k: int)
    ensures -1 <= k < |s| && (k >= 0 ==> s[k] == c && c !in s[..k]) && (k < 0 ==> c !in s)
  {
    if s == "" then -1
    else if s[0] == c then 0
    else
      var k := IndexOf(s[1..], c);
      if k < 0 then -1
      else
        assert s[..k + 1] == [s[0]] + s[1..][..k];
        k + 1
  }

  lemma IndexAfter(front: string, c: char, rest: string)
    requires c !in front
    ensures IndexOf(front + [c] + rest, c) == |front|
  {
    var s := front + [c] + rest;
    var k := IndexOf(s, c);
    assert s[|front|] == c;
    assert forall j :: 0 <= j < |front| ==> s[j] == front[j];
    assert forall j :: 0 <= j < k ==> s[..k][j] == s[j];
  }

  /** `split` at a character. */
  function Split(s: string, c: char): (parts: seq<string>)
    ensures parts != []
    decreases |s|
  {
    var k := IndexOf(s, c);
    if k < 0 then [s] else [s[..k]] + Split(s[k + 1..], c)
  }

  function Join(parts: seq<string>, c: char): string
    requires parts != []
  {
    if |parts| == 1 then parts[0] else parts[0] + [c] + Join(parts[1..], c)
  }

  lemma {:induction false} SplitJoined(parts: seq<string>, c: char)
    requires parts != [] && forall i :: 0 <= i < |parts| ==> c !in parts[i]
    ensures Split(Join(parts, c), c) == parts
    decreases |parts|
  {
    hide IndexOf;
    if |parts| > 1 {
      var rest := Join(parts[1..], c);
      SplitJoined(parts[1..], c);
      IndexAfter(parts[0], c, rest);
      var s := parts[0] + [c] + rest;
      assert s[..|parts[0]|] == parts[0] && s[|parts[0]| + 1..] == rest;
    }
  }

  lemma {:induction false} JoinSplit(s: string, c: char)
    ensures Join(Split(s, c), c) == s
    ensures forall i :: 0 <= i < |Split(s, c)| ==> c !in Split(s, c)[i]
    decreases |s|
  {
    var k := IndexOf(s, c);
    if k >= 0 {
      JoinSplit(s[k + 1..], c);
      assert s == s[..k] + [c] + s[k + 1..];
    }
  }

  predicate IsDigit(c: char) { '0' <= c <= '9' }

  predicate Digits(s: string) { s != "" && forall i :: 0 <= i < |s| ==> IsDigit(s[i]) }

  /** The number a string of digits spells. */
  function Value(s: string): nat
    requires forall i :: 0 <= i < |s| ==> IsDigit(s[i])
  {
    if s == "" then 0
    else
      assert IsDigit(s[|s| - 1]);
      10 * Value(s[..|s| - 1]) + (s[|s| - 1] as int - '0' as int)
  }
}
