/** Task documents: the front matter printed by `renderTaskDocument` and read by `parseTaskDocument`. */
module TaskDocument {
  import opened Wrappers
  import opened ScriptText

  datatype Field =
    | Id | Title | FeatureArea | ParentTask | DecomposedBy | Priority | Status | Owner | Branch
    | Scope | Acceptance | UserDocs | DeveloperDocs | TestEvidence | References | CompletedAt

  function Name(f: Field): string {
    match f
    case Id => "id"
    case Title => "title"
    case FeatureArea => "feature_area"
    case ParentTask => "parent_task"
    case DecomposedBy => "decomposed_by"
    case Priority => "priority"
    case Status => "status"
    case Owner => "owner"
    case Branch => "branch"
    case Scope => "scope"
    case Acceptance => "acceptance"
    case UserDocs => "user_docs"
    case DeveloperDocs => "developer_docs"
    case TestEvidence => "test_evidence"
    case References => "references"
    case CompletedAt => "completed_at"
  }

  /** The order in which the printer writes the fields. */
  const FIELDS: seq<Field> := [
    Id, Title, FeatureArea, ParentTask, DecomposedBy, Priority, Status, Owner, Branch,
    Scope, Acceptance, UserDocs, DeveloperDocs, TestEvidence, References, CompletedAt]

  const REQUIRED: seq<Field> := [
    Id, Title, Priority, Status, Owner, Branch, Scope, Acceptance, UserDocs,
    DeveloperDocs, TestEvidence, References, CompletedAt]

  const TRACEABILITY: seq<Field> := [FeatureArea, ParentTask, DecomposedBy]

  /** What a traceability field of an old document reads as. */
  function Default(f: Field): string {
    match f
    case FeatureArea => "\U{5386}\U{53F2}\U{672A}\U{5F52}\U{7C7B}"
    case DecomposedBy => "\U{5386}\U{53F2}\U{672A}\U{8BB0}\U{5F55}"
    case _ => "-"
  }

  type Metadata = map<Field, string>

  datatype Task = Task(metadata: Metadata, body: string)

  datatype Error = NoFrontMatter | BadLine(line: string) | DuplicateKey(key: string) | MissingField(field: Field)

  datatype Result<+T> = Ok(value: T) | Err(error: Error)

  // ---- printing -------------------------------------------------------------------------

  function FieldLine(metadata: Metadata, f: Field): string
    requires f in metadata
  {
    Name(f) + ": " + metadata[f]
  }

  predicate Complete(metadata: Metadata) { forall f: Field :: f in metadata }

  function FieldLines(metadata: Metadata): seq<string>
    requires Complete(metadata)
  {
    seq(|FIELDS|, i requires 0 <= i < |FIELDS| => FieldLine(metadata, FIELDS[i]))
  }

  /** `renderTaskDocument`. */
  function Render(task: Task): string
    requires Complete(task.metadata)
  {
    "---\n" + Join(FieldLines(task.metadata), '\n') + "\n---\n" + TrimEnd(task.body) + "\n"
  }

  // ---- reading --------------------------------------------------------------------------

  predicate StartsAt(s: string, part: string, i: nat) { i + |part| <= |s| && s[i..i + |part|] == part }

  predicate CloseAt(s: string, i: nat) { StartsAt(s, "\n---", i) || StartsAt(s, "\r\n---", i) }

  /** The lazy match: the first place where a line end and `---` follow. */
  function FindClose(s: string, i: nat): (k: int)
    requires i <= |s|
    ensures k >= 0 ==> i <= k < |s| && CloseAt(s, k)
    ensures forall j :: i <= j <= |s| && (k < 0 || j < k) ==> !CloseAt(s, j)
    decreases |s| - i
  {
    if CloseAt(s, i) then i else if i == |s| then -1 else FindClose(s, i + 1)
  }

  /** An optional line end that is consumed. */
  function SkipLineEnd(s: string): string {
    if StartsAt(s, "\r\n", 0) then s[2..] else if StartsAt(s, "\r", 0) || StartsAt(s, "\n", 0) then s[1..] else s
  }

  /** The front matter and the body, as the regular expression groups them. */
  function Cut(s: string): Option<(string, string)> {
    var open := if StartsAt(s, "---\n", 0) then 4 else if StartsAt(s, "---\r\n", 0) then 5 else 0;
    if open == 0 then None
    else
      var close := FindClose(s, open);
      if close < 0 then None
      else
        var after := close + if s[close] == '\r' then 5 else 4;
        Some((s[open..close], SkipLineEnd(s[after..])))
  }

  /** `split(/\r?\n/)`. */
  function SplitLines(s: string): (lines: seq<string>)
    decreases |s|
  {
    var k := IndexOf(s, '\n');
    if k < 0 then [s] else [WithoutReturn(s[..k])] + SplitLines(s[k + 1..])
  }

  function WithoutReturn(line: string): string {
    if line != "" && line[|line| - 1] == '\r' then line[..|line| - 1] else line
  }

  /** One line of front matter: a key and a value, nothing, or an error. */
  function ReadLine(values: map<string, string>, line: string): Result<map<string, string>> {
    if Trim(line) == "" || (TrimStart(line) != "" && TrimStart(line)[0] == '#') then Ok(values)
    else
      var separator := IndexOf(line, ':');
      if separator < 1 then Err(BadLine(line))
      else
        var key, value := Trim(line[..separator]), Trim(line[separator + 1..]);
        if key in values then Err(DuplicateKey(key)) else Ok(values[key := value])
  }

  function ReadLines(values: map<string, string>, lines: seq<string>): Result<map<string, string>>
    decreases |lines|
  {
    if lines == [] then Ok(values)
    else
      var next := ReadLine(values, lines[0]);
      if next.Err? then next else ReadLines(next.value, lines[1..])
  }

  predicate Given(values: map<string, string>, f: Field) { Name(f) in values && values[Name(f)] != "" }

  /** The first of the fields without a value, or how many fields there are. */
  function FirstMissing(values: map<string, string>, fields: seq<Field>): (n: nat)
    ensures n <= |fields|
    ensures forall i :: 0 <= i < n ==> Given(values, fields[i])
    ensures n < |fields| ==> !Given(values, fields[n])
  {
    if fields == [] || !Given(values, fields[0]) then 0 else 1 + FirstMissing(values, fields[1..])
  }

  function ValueOf(values: map<string, string>, f: Field): string {
    if Given(values, f) then values[Name(f)] else Default(f)
  }

  function Chosen(values: map<string, string>, fields: seq<Field>): Metadata {
    map f: Field | f in fields :: ValueOf(values, f)
  }

  lemma ChosenGrows(values: map<string, string>, fields: seq<Field>, k: nat)
    requires k < |fields|
    ensures Chosen(values, fields[..k + 1]) == Chosen(values, fields[..k])[fields[k] := ValueOf(values, fields[k])]
  {
    hide ValueOf;
    assert fields[..k + 1] == fields[..k] + [fields[k]];
  }

  function MetadataOf(values: map<string, string>): (metadata: Metadata) {
    map f: Field | f in FIELDS :: ValueOf(values, f)
  }

  /** `parseTaskDocument`. */
  function Parse(source: string): Result<Task> {
    var parts := Cut(source);
    if parts.None? then Err(NoFrontMatter)
    else
      var values := ReadLines(map[], SplitLines(parts.value.0));
      if values.Err? then Err(values.error)
      else
        var missing := FirstMissing(values.value, REQUIRED);
        if missing < |REQUIRED| then Err(MissingField(REQUIRED[missing]))
        else Ok(Task(MetadataOf(values.value), parts.value.1))
  }

  /** The line loop. */
  method ReadFrontMatter(text: string) returns (r: Result<map<string, string>>)
    ensures r == ReadLines(map[], SplitLines(text))
  {
    hide Trim, TrimStart, IndexOf, SplitLines;
    var lines := SplitLines(text);
    var values: map<string, string> := map[];
    for k := 0 to |lines|
      invariant ReadLines(map[], lines) == ReadLines(values, lines[k..])
    {
      var line := lines[k];
      assert lines[k..][0] == line && lines[k..][1..] == lines[k + 1..];
      if Trim(line) == "" || (TrimStart(line) != "" && TrimStart(line)[0] == '#') { continue; }
      var separator := IndexOf(line, ':');
      if separator < 1 { return Err(BadLine(line)); }
      var key, value := Trim(line[..separator]), Trim(line[separator + 1..]);
      if key in values { return Err(DuplicateKey(key)); }
      values := values[key := value];
    }
    return Ok(values);
  }

  /** The reader with its loops. */
  method ParseTaskDocument(source: string) returns (r: Result<Task>)
    ensures r == Parse(source)
  {
    hide Cut, Name, Default;
    var parts := Cut(source);
    if parts.None? { return Err(NoFrontMatter); }
    var read := ReadFrontMatter(parts.value.0);
    if read.Err? { return Err(read.error); }
    var values := read.value;
    var required := ReadRequired(values, REQUIRED);
    if required.Err? { return Err(required.error); }
    var metadata := AddTraceability(values, required.value, TRACEABILITY);
    forall f: Field ensures f in FIELDS && (f in REQUIRED || f in TRACEABILITY) { EveryField(f); }
    assert metadata == MetadataOf(values);
    return Ok(Task(metadata, parts.value.1));
  }

  /** The loop over the required fields. */
  method ReadRequired(values: map<string, string>, fields: seq<Field>) returns (r: Result<Metadata>)
    ensures var missing := FirstMissing(values, fields);
      r == if missing < |fields| then Err(MissingField(fields[missing]))
           else Ok(Chosen(values, fields))
  {
    hide Name, Default, Given, ValueOf;
    var metadata: Metadata := map[];
    for k := 0 to |fields|
      invariant FirstMissing(values, fields) == k + FirstMissing(values, fields[k..])
      invariant metadata == Chosen(values, fields[..k])
    {
      var f := fields[k];
      assert fields[k..][0] == f && fields[k..][1..] == fields[k + 1..];
      ChosenGrows(values, fields, k);
      if !Given(values, f) { return Err(MissingField(f)); }
      metadata := metadata[f := ValueOf(values, f)];
    }
    assert fields[..|fields|] == fields;
    return Ok(metadata);
  }

  /** The loop over the traceability fields. */
  method AddTraceability(values: map<string, string>, start: Metadata, fields: seq<Field>) returns (metadata: Metadata)
    ensures metadata == start + Chosen(values, fields)
  {
    hide ValueOf;
    metadata := start;
    for k := 0 to |fields|
      invariant metadata == start + Chosen(values, fields[..k])
    {
      var f := fields[k];
      ChosenGrows(values, fields, k);
      metadata := metadata[f := ValueOf(values, f)];
    }
    assert fields[..|fields|] == fields;
  }

  function Rank(f: Field): nat {
    match f
    case Id => 0 case Title => 1 case FeatureArea => 2 case ParentTask => 3 case DecomposedBy => 4 case Priority => 5
    case Status => 6 case Owner => 7 case Branch => 8 case Scope => 9 case Acceptance => 10 case UserDocs => 11
    case DeveloperDocs => 12 case TestEvidence => 13 case References => 14 case CompletedAt => 15
  }

  lemma EveryField(f: Field)
    ensures Rank(f) < |FIELDS| && FIELDS[Rank(f)] == f
    ensures f in REQUIRED || f in TRACEABILITY
  {
    assert REQUIRED[0] == Id && REQUIRED[1] == Title && REQUIRED[2] == Priority && REQUIRED[3] == Status;
    assert REQUIRED[4] == Owner && REQUIRED[5] == Branch && REQUIRED[6] == Scope && REQUIRED[7] == Acceptance;
    assert REQUIRED[8] == UserDocs && REQUIRED[9] == DeveloperDocs && REQUIRED[10] == TestEvidence;
    assert REQUIRED[11] == References && REQUIRED[12] == CompletedAt;
    assert TRACEABILITY[0] == FeatureArea && TRACEABILITY[1] == ParentTask && TRACEABILITY[2] == DecomposedBy;
    match f
    case Id => case Title => case FeatureArea => case ParentTask => case DecomposedBy => case Priority =>
    case Status => case Owner => case Branch => case Scope => case Acceptance => case UserDocs =>
    case DeveloperDocs => case TestEvidence => case References => case CompletedAt =>
  }

  // ---- names ----------------------------------------------------------------------------

  /** Lower-case letters and underscores. */
  predicate Word(s: string) { forall i :: 0 <= i < |s| ==> 'a' <= s[i] <= 'z' || s[i] == '_' }

  lemma NameIsWord(f: Field)
    ensures Name(f) != "" && Word(Name(f))
  {
    if Rank(f) < 8 { FirstNames(f); } else { LastNames(f); }
  }

  lemma FirstNames(f: Field)
    requires Rank(f) < 8
    ensures Name(f) != "" && Word(Name(f))
  {
  }

  lemma LastNames(f: Field)
    requires Rank(f) >= 8
    ensures Name(f) != "" && Word(Name(f))
  {
  }

  /** The length of a name and its first letter tell the fields apart. */
  function RankOfName(s: string): nat
    requires s != ""
  {
    match |s|
    case 2 => 0
    case 5 => if s[0] == 't' then 1 else if s[0] == 'o' then 7 else 9
    case 6 => if s[0] == 's' then 6 else 8
    case 8 => 5
    case 9 => 11
    case 10 => if s[0] == 'a' then 10 else 14
    case 11 => 3
    case 12 => if s[0] == 'f' then 2 else 15
    case 13 => if s[0] == 'd' then 4 else 13
    case _ => 12
  }

  lemma NamesDiffer(f: Field, g: Field)
    ensures Name(f) == Name(g) ==> f == g
  {
    NameTells(f);
    NameTells(g);
    EveryField(f);
    EveryField(g);
  }

  lemma NameTells(f: Field)
    ensures Name(f) != "" && RankOfName(Name(f)) == Rank(f)
  {
    match f
    case Id => case Title => case FeatureArea => case ParentTask => case DecomposedBy => case Priority =>
    case Status => case Owner => case Branch => case Scope => case Acceptance => case UserDocs =>
    case DeveloperDocs => case TestEvidence => case References => case CompletedAt =>
  }

  // ---- values that survive ---------------------------------------------------------------

  /** Not empty, not surrounded by white space, and on one line. */
  predicate PlainValue(v: string) { v != "" && Trimmed(v) && '\n' !in v }

  ghost predicate PlainMetadata(m: Metadata)
    requires Complete(m)
  {
    forall f: Field :: PlainValue(m[f])
  }

  /** A printed line: starts with a letter, stays on one line, does not end in white space. */
  predicate PlainLine(line: string) {
    line != "" && ('a' <= line[0] <= 'z' || line[0] == '_') && '\n' !in line && !IsSpace(line[|line| - 1])
  }

  lemma FieldLineIsPlain(m: Metadata, f: Field)
    requires f in m && PlainValue(m[f])
    ensures PlainLine(FieldLine(m, f))
  {
    NameIsWord(f);
    var line := FieldLine(m, f);
    assert line[0] == Name(f)[0] && line[|line| - 1] == m[f][|m[f]| - 1];
  }

  /** Reading a printed line gives back the name and the value. */
  lemma ReadsBack(values: map<string, string>, m: Metadata, f: Field)
    requires f in m && PlainValue(m[f]) && Name(f) !in values
    ensures ReadLine(values, FieldLine(m, f)) == Ok(values[Name(f) := m[f]])
  {
    hide Name;
    var name, v, line := Name(f), m[f], FieldLine(m, f);
    NameIsWord(f);
    FieldLineIsPlain(m, f);
    TrimmedStays(line);
    TrimmedStays(name);
    TrimmedStays(v);
    assert (" " + v)[1..] == v && TrimStart(" " + v) == v;
    IndexAfter(name, ':', " " + v);
    assert line == name + [':'] + (" " + v);
    assert line[..|name|] == name && line[|name| + 1..] == " " + v;
  }

  // ---- the front matter as a whole ----------------------------------------------------------

  /** No line inside it can be taken for its end. */
  predicate Safe(text: string) {
    forall i :: 0 <= i < |text| ==> SafeAt(text, i)
  }

  predicate SafeAt(text: string, i: nat)
    requires i < |text|
  {
    && (text[i] == '\n' ==> i + 1 < |text| && text[i + 1] != '-')
    && (text[i] == '\r' ==> i + 1 < |text| && text[i + 1] != '\n')
  }

  lemma LineIsSafe(line: string)
    requires PlainLine(line)
    ensures Safe(line)
  {
  }

  lemma {:induction false} JoinIsSafe(lines: seq<string>)
    requires lines != [] && forall i :: 0 <= i < |lines| ==> PlainLine(lines[i])
    ensures lines[0] != "" && Join(lines, '\n') != "" && Join(lines, '\n')[0] == lines[0][0]
    ensures Safe(Join(lines, '\n'))
    decreases |lines|
  {
    LineIsSafe(lines[0]);
    if |lines| > 1 {
      var head, rest := lines[0], Join(lines[1..], '\n');
      var text := head + ['\n'] + rest;
      JoinIsSafe(lines[1..]);
      forall i | 0 <= i < |text| ensures SafeAt(text, i) {
        if i < |head| {
          assert SafeAt(head, i);
        } else if i > |head| {
          assert SafeAt(rest, i - |head| - 1);
        }
      }
    }
  }

  /** The lazy match ends the front matter where it was printed to end. */
  lemma ClosesInPlace(text: string, tail: string)
    requires Safe(text) && text != "" && text[0] != '-'
    ensures var s := "---\n" + text + "\n---\n" + tail; FindClose(s, 4) == 4 + |text|
  {
    var s := "---\n" + text + "\n---\n" + tail;
    var end := 4 + |text|;
    assert s[end..end + 4] == "\n---";
    forall j | 4 <= j < end ensures !CloseAt(s, j) {
      assert SafeAt(text, j - 4) && s[j] == text[j - 4];
      assert j + 1 < end ==> s[j + 1] == text[j - 3];
      assert s[j..j + 4][0] == s[j] && s[j..j + 4][1] == s[j + 1];
      assert s[j..j + 5][0] == s[j] && s[j..j + 5][1] == s[j + 1];
    }
    assert CloseAt(s, end);
  }

  lemma CutsInPlace(text: string, tail: string)
    requires Safe(text) && text != "" && text[0] != '-'
    ensures Cut("---\n" + text + "\n---\n" + tail) == Some((text, tail))
  {
    hide Safe, FindClose;
    var s := "---\n" + text + "\n---\n" + tail;
    ClosesInPlace(text, tail);
    assert s[0..4] == "---\n";
    var end := 4 + |text|;
    assert s[4..end] == text && s[end] == '\n';
    assert s[end + 4..] == "\n" + tail;
    SkipsOne(tail);
    assert StartsAt(s, "---\n", 0);
  }

  lemma SkipsOne(tail: string)
    ensures SkipLineEnd("\n" + tail) == tail
  {
    var s := "\n" + tail;
    assert s[0..1] == "\n" && s[1..] == tail;
    assert |s| >= 2 ==> s[0..2][0] == '\n';
  }

  lemma NoReturnToCut(line: string)
    requires PlainLine(line)
    ensures WithoutReturn(line) == line
  {
  }

  lemma {:induction false} SplitLinesJoined(lines: seq<string>)
    requires lines != [] && forall i :: 0 <= i < |lines| ==> PlainLine(lines[i])
    ensures SplitLines(Join(lines, '\n')) == lines
    decreases |lines|
  {
    hide IndexOf, WithoutReturn;
    var head := lines[0];
    NoReturnToCut(head);
    if |lines| > 1 {
      var rest := Join(lines[1..], '\n');
      SplitLinesJoined(lines[1..]);
      IndexAfter(head, '\n', rest);
      var s := head + ['\n'] + rest;
      assert s[..|head|] == head && s[|head| + 1..] == rest;
    }
  }

  // ---- all lines ---------------------------------------------------------------------------

  /** The values of the first `k` printed fields. */
  function Upto(m: Metadata, k: nat): map<string, string>
    requires Complete(m) && k <= |FIELDS|
  {
    if k == 0 then map[] else Upto(m, k - 1)[Name(FIELDS[k - 1]) := m[FIELDS[k - 1]]]
  }

  lemma {:induction false} UptoHas(m: Metadata, k: nat, i: nat)
    requires Complete(m) && k <= |FIELDS| && i < |FIELDS|
    ensures Name(FIELDS[i]) in Upto(m, k) <==> i < k
    ensures i < k ==> Upto(m, k)[Name(FIELDS[i])] == m[FIELDS[i]]
    decreases k
  {
    hide Name;
    if k > 0 {
      FieldsDiffer(k - 1);
      UptoHas(m, k - 1, i);
    }
  }

  lemma FieldsDiffer(k: nat)
    requires k < |FIELDS|
    ensures forall i :: 0 <= i < |FIELDS| && i != k ==> Name(FIELDS[i]) != Name(FIELDS[k])
  {
    forall i | 0 <= i < |FIELDS| && i != k ensures Name(FIELDS[i]) != Name(FIELDS[k]) {
      NamesDiffer(FIELDS[i], FIELDS[k]);
      RankIsPlace(i);
      RankIsPlace(k);
    }
  }

  lemma RankIsPlace(i: nat)
    requires i < |FIELDS|
    ensures Rank(FIELDS[i]) == i
  {
  }

  lemma {:induction false} ReadsAll(m: Metadata, k: nat)
    requires Complete(m) && PlainMetadata(m) && k <= |FIELDS|
    ensures ReadLines(Upto(m, k), FieldLines(m)[k..]) == Ok(Upto(m, |FIELDS|))
    decreases |FIELDS| - k
  {
    hide Name, ReadLine, PlainValue, FieldLine;
    var lines := FieldLines(m);
    if k < |FIELDS| {
      UptoHas(m, k, k);
      ReadsBack(Upto(m, k), m, FIELDS[k]);
      assert lines[k..][0] == FieldLine(m, FIELDS[k]) && lines[k..][1..] == lines[k + 1..];
      ReadsAll(m, k + 1);
    }
  }

  // ---- round trips --------------------------------------------------------------------------

  /** The body as the printer leaves it: trailing white space becomes one newline. */
  function Normal(body: string): string { TrimEnd(body) + "\n" }

  lemma NormalStays(body: string)
    ensures Normal(Normal(body)) == Normal(body)
  {
    var t := TrimEnd(body);
    var s := t + "\n";
    assert s[|s| - 1] == '\n' && s[..|s| - 1] == t;
    assert t == "" || !IsSpace(t[|t| - 1]);
    assert TrimEnd(s) == TrimEnd(t) == t;
  }

  lemma PrintedValuesComplete(m: Metadata)
    requires Complete(m) && PlainMetadata(m)
    ensures var values := Upto(m, |FIELDS|);
      FirstMissing(values, REQUIRED) == |REQUIRED| && MetadataOf(values) == m
  {
    hide Name, Upto;
    var values := Upto(m, |FIELDS|);
    forall f: Field ensures f in FIELDS && Given(values, f) && ValueOf(values, f) == m[f] {
      EveryField(f);
      UptoHas(m, |FIELDS|, Rank(f));
      assert PlainValue(m[f]);
    }
  }

  /** A printed document with plain metadata reads back: the same metadata and the normal body. */
  lemma RoundTrip(t: Task)
    requires Complete(t.metadata) && PlainMetadata(t.metadata)
    ensures Parse(Render(t)) == Ok(Task(t.metadata, Normal(t.body)))
  {
    var m, lines := t.metadata, FieldLines(t.metadata);
    forall i | 0 <= i < |lines| ensures PlainLine(lines[i]) { FieldLineIsPlain(m, FIELDS[i]); }
    hide PlainValue, PlainLine, Name, FieldLines, Cut, Safe;
    var text := Join(lines, '\n');
    JoinIsSafe(lines);
    StartsWithLetter(lines[0]);
    CutsInPlace(text, Normal(t.body));
    assert Render(t) == "---\n" + text + "\n---\n" + Normal(t.body);
    SplitLinesJoined(lines);
    ReadsAll(m, 0);
    assert FieldLines(m)[0..] == lines;
    PrintedValuesComplete(m);
  }

  lemma StartsWithLetter(line: string)
    requires PlainLine(line)
    ensures line[0] != '-'
  {
  }

  // ---- whatever parses is plain -----------------------------------------------------------

  predicate Single(values: map<string, string>) {
    forall k :: k in values ==> Trimmed(values[k]) && '\n' !in values[k]
  }

  lemma {:induction false} LinesHaveNoBreak(s: string)
    ensures forall i :: 0 <= i < |SplitLines(s)| ==> '\n' !in SplitLines(s)[i]
    decreases |s|
  {
    var k := IndexOf(s, '\n');
    if k >= 0 {
      LinesHaveNoBreak(s[k + 1..]);
      assert WithoutReturn(s[..k]) <= s[..k];
    }
  }

  lemma ReadLineIsSingle(values: map<string, string>, line: string)
    requires Single(values) && '\n' !in line
    ensures var r := ReadLine(values, line); r.Ok? ==> Single(r.value)
  {
    hide IndexOf, TrimStart;
    var separator := IndexOf(line, ':');
    if separator >= 1 { TrimIsPart(line[separator + 1..]); }
  }

  lemma {:induction false} ReadValuesAreSingle(values: map<string, string>, lines: seq<string>)
    requires Single(values) && forall i :: 0 <= i < |lines| ==> '\n' !in lines[i]
    ensures var r := ReadLines(values, lines); r.Ok? ==> Single(r.value)
    decreases |lines|
  {
    hide ReadLine, Single;
    if lines != [] {
      ReadLineIsSingle(values, lines[0]);
      var next := ReadLine(values, lines[0]);
      if next.Ok? { ReadValuesAreSingle(next.value, lines[1..]); }
    }
  }
  lemma DefaultIsPlain(f: Field)
    ensures PlainValue(Default(f))
  {
  }

  /** Every value the reader returns is plain. */
  lemma ParsedIsPlain(source: string)
    requires Parse(source).Ok?
    ensures var m := Parse(source).value.metadata; Complete(m) && PlainMetadata(m)
  {
    hide Cut, ReadLines, SplitLines, Name, Default;
    var lines := SplitLines(Cut(source).value.0);
    LinesHaveNoBreak(Cut(source).value.0);
    ReadValuesAreSingle(map[], lines);
    var values := ReadLines(map[], lines).value;
    var m := Parse(source).value.metadata;
    forall f: Field ensures f in m { EveryField(f); }
    forall f: Field ensures PlainValue(m[f]) {
      EveryField(f);
      DefaultIsPlain(f);
    }
  }

  /** A document survives printing and reading exactly when all its values are plain. */
  lemma RoundTripsExactly(t: Task)
    requires Complete(t.metadata)
    ensures PlainMetadata(t.metadata) <==>
      Parse(Render(t)).Ok? && Parse(Render(t)).value.metadata == t.metadata
  {
    hide Render, Parse;
    if PlainMetadata(t.metadata) { RoundTrip(t); }
    if Parse(Render(t)).Ok? { ParsedIsPlain(Render(t)); }
  }

  /** Whatever was read can be printed and read again without loss, and printing is then stable. */
  lemma PrintingIsStable(source: string)
    requires Parse(source).Ok?
    ensures var t := Parse(source).value;
      && Complete(t.metadata)
      && Parse(Render(t)) == Ok(Task(t.metadata, Normal(t.body)))
      && Render(Parse(Render(t)).value) == Render(t)
  {
    var t := Parse(source).value;
    ParsedIsPlain(source);
    hide Parse, PlainMetadata;
    RoundTrip(t);
    NormalStays(t.body);
  }
}
