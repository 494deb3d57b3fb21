/** Validation of a plan payload: which JSON documents become a plan, and that every plan so
    accepted has an order in which its tasks can be executed. */
module PlanArtifact {
  import opened Wrappers
  import opened PlanDag

  const MAX_TASKS := 32
  const MAX_FIELD_CHARS := 2000
  const MAX_COMMAND_CHARS := 2000
  const MAX_COMMANDS_PER_TASK := 20
  const MAX_POINTERS := 32

  datatype Json =
    | Null
    | Bool(b: bool)
    | Int(n: int)
    | Str(text: string)
    | Arr(items: seq<Json>)
    | Obj(fields: map<string, Json>)
  {
    function Get(name: string, absent: Json): Json {
      if Obj? && name in fields then fields[name] else absent
    }
  }

  datatype Error =
    | EmptyField(field: string)
    | LongField(field: string)
    | Placeholder(field: string)
    | NoTasks
    | TooManyTasks
    | TaskNotObject
    | DuplicateTask
    | UnknownKind
    | BadDependencies
    | BadCommands
    | UnknownDependency
    | DependencyCycle(cycle: seq<string>)
    | BadPointers

  datatype Result<+T> = Ok(value: T) | Err(error: Error)

  datatype Plan = Plan(solution: string, tasks: seq<Task>, pointers: seq<string>)

  /** What the regular expressions and `str.strip` decide about text. */
  datatype Lexicon = Lexicon(space: char -> bool, placeholder: string -> bool)
  {
    predicate Blank(s: string) { forall c :: c in s ==> space(c) }
  }

  function Text(v: Json): string { if v.Str? then v.text else "" }

  /** `_bounded_text`: the text of a string value, blank for every other value. */
  function BoundedText(lex: Lexicon, v: Json, field: string): (r: Result<string>)
    ensures r.Ok? <==> !lex.Blank(Text(v)) && |Text(v)| <= MAX_FIELD_CHARS
    ensures r.Ok? ==> r.value == Text(v)
    ensures r.Err? ==> !r.error.DependencyCycle?
  {
    if lex.Blank(Text(v)) then Err(EmptyField(field))
    else if |Text(v)| > MAX_FIELD_CHARS then Err(LongField(field))
    else Ok(Text(v))
  }

  function KindOf(name: string): Option<Kind> {
    match name
    case "behavior" => Some(Behavior)
    case "bug" => Some(Bug)
    case "refactor" => Some(Refactor)
    case "docs" => Some(Docs)
    case "config" => Some(Config)
    case "style" => Some(Style)
    case _ => None
  }

  predicate Named(v: Json) { v.Str? && v.text != "" }

  predicate Runnable(lex: Lexicon, v: Json) {
    v.Str? && !lex.Blank(v.text) && |v.text| <= MAX_COMMAND_CHARS
  }

  function Texts(items: seq<Json>): seq<string> { seq(|items|, k requires 0 <= k < |items| => Text(items[k])) }

  /** The tasks a payload describes, whether or not they are acceptable. */
  function TaskOf(raw: Json): Task {
    var deps, commands := raw.Get("depends_on", Arr([])), raw.Get("verification_commands", Arr([]));
    var kind := KindOf(Text(raw.Get("kind", Str("behavior"))));
    Task(Text(raw.Get("id", Null)), Text(raw.Get("title", Null)),
         if kind.Some? then kind.value else Behavior,
         Text(raw.Get("acceptance", Null)),
         if deps.Arr? then Texts(deps.items) else [],
         if commands.Arr? then Texts(commands.items) else [])
  }

  function TasksOf(raws: seq<Json>): seq<Task> { seq(|raws|, k requires 0 <= k < |raws| => TaskOf(raws[k])) }

  predicate Sound(lex: Lexicon, v: Json) {
    !lex.Blank(Text(v)) && |Text(v)| <= MAX_FIELD_CHARS && !lex.placeholder(Text(v))
  }

  /** A task object that is acceptable by itself. */
  predicate WellFormed(lex: Lexicon, raw: Json) {
    var deps, commands := raw.Get("depends_on", Arr([])), raw.Get("verification_commands", Arr([]));
    && raw.Obj?
    && !lex.Blank(Text(raw.Get("id", Null))) && |Text(raw.Get("id", Null))| <= MAX_FIELD_CHARS
    && Sound(lex, raw.Get("title", Null)) && Sound(lex, raw.Get("acceptance", Null))
    && KindOf(Text(raw.Get("kind", Str("behavior")))).Some?
    && deps.Arr? && (forall d :: d in deps.items ==> Named(d))
    && commands.Arr? && |commands.items| <= MAX_COMMANDS_PER_TASK
    && (forall c :: c in commands.items ==> Runnable(lex, c))
  }

  predicate Pointers(lex: Lexicon, v: Json) {
    || v.Null?
    || (v.Arr? && |v.items| <= MAX_POINTERS
        && forall p :: p in v.items ==> !lex.Blank(Text(p)) && |Text(p)| <= MAX_FIELD_CHARS)
  }

  ghost predicate DistinctIds(tasks: seq<Task>) {
    forall i, j :: 0 <= i < j < |tasks| ==> tasks[i].id != tasks[j].id
  }

  ghost predicate DependenciesKnown(tasks: seq<Task>) {
    forall t, d :: t in tasks && d in t.dependsOn ==> exists u :: u in tasks && u.id == d
  }

  /** The payloads that are plans. */
  ghost predicate Acceptable(lex: Lexicon, v: Json) {
    var raws := v.Get("tasks", Null);
    && Sound(lex, v.Get("solution", Null))
    && raws.Arr? && 0 < |raws.items| <= MAX_TASKS
    && (forall raw :: raw in raws.items ==> WellFormed(lex, raw))
    && DistinctIds(TasksOf(raws.items))
    && DependenciesKnown(TasksOf(raws.items))
    && (exists order :: Executable(TasksOf(raws.items), order))
    && Pointers(lex, v.Get("relevant_pointers", Null))
  }

  method ReadCommands(lex: Lexicon, v: Json) returns (r: Result<seq<string>>)
    ensures r.Ok? <==> v.Arr? && |v.items| <= MAX_COMMANDS_PER_TASK
                       && forall c :: c in v.items ==> Runnable(lex, c)
    ensures r.Ok? ==> r.value == Texts(v.items)
    ensures r.Err? ==> !r.error.DependencyCycle?
  {
    if !v.Arr? || |v.items| > MAX_COMMANDS_PER_TASK { return Err(BadCommands); }
    var commands: seq<string> := [];
    for k := 0 to |v.items|
      invariant forall n :: 0 <= n < k ==> Runnable(lex, v.items[n])
      invariant commands == Texts(v.items)[..k]
    {
      if !Runnable(lex, v.items[k]) { return Err(BadCommands); }
      commands := commands + [v.items[k].text];
    }
    return Ok(commands);
  }

  method ReadPointers(lex: Lexicon, v: Json) returns (r: Result<seq<string>>)
    ensures r.Ok? <==> Pointers(lex, v)
    ensures r.Ok? ==> r.value == if v.Arr? then Texts(v.items) else []
    ensures r.Err? ==> !r.error.DependencyCycle?
  {
    if v.Null? { return Ok([]); }
    if !v.Arr? || |v.items| > MAX_POINTERS { return Err(BadPointers); }
    var pointers: seq<string> := [];
    for k := 0 to |v.items|
      invariant forall n :: 0 <= n < k ==> BoundedText(lex, v.items[n], "relevant_pointers").Ok?
      invariant pointers == Texts(v.items)[..k]
    {
      var text := BoundedText(lex, v.items[k], "relevant_pointers");
      if text.Err? { return Err(text.error); }
      pointers := pointers + [text.value];
    }
    return Ok(pointers);
  }

  /** One turn of the loop over the tasks of a plan; the checks run in the order of the source. */
  method ReadTask(lex: Lexicon, raw: Json, taken: set<string>) returns (r: Result<Task>)
    ensures r.Ok? <==> WellFormed(lex, raw) && TaskOf(raw).id !in taken
    ensures r.Ok? ==> r.value == TaskOf(raw)
    ensures r.Err? ==> !r.error.DependencyCycle?
  {
    if !raw.Obj? { return Err(TaskNotObject); }
    var id := BoundedText(lex, raw.Get("id", Null), "task.id");
    if id.Err? { return Err(id.error); }
    if id.value in taken { return Err(DuplicateTask); }
    var title := BoundedText(lex, raw.Get("title", Null), "task.title");
    if title.Err? { return Err(title.error); }
    if lex.placeholder(title.value) { return Err(Placeholder("task.title")); }
    var kindName := Text(raw.Get("kind", Str("behavior")));
    if |kindName| > MAX_FIELD_CHARS { return Err(LongField("task.kind")); }
    var kind := KindOf(kindName);
    if kind.None? { return Err(UnknownKind); }
    var acceptance := BoundedText(lex, raw.Get("acceptance", Null), "task.acceptance");
    if acceptance.Err? { return Err(acceptance.error); }
    if lex.placeholder(acceptance.value) { return Err(Placeholder("task.acceptance")); }
    var deps := raw.Get("depends_on", Arr([]));
    if !deps.Arr? || exists d :: d in deps.items && !Named(d) { return Err(BadDependencies); }
    var commands := ReadCommands(lex, raw.Get("verification_commands", Arr([])));
    if commands.Err? { return Err(commands.error); }
    return Ok(Task(id.value, title.value, kind.value, acceptance.value, Texts(deps.items), commands.value));
  }

  /** The loop over the tasks, remembering the ids taken so far. */
  method ReadTasks(lex: Lexicon, raws: seq<Json>) returns (r: Result<seq<Task>>)
    ensures r.Ok? <==> (forall raw :: raw in raws ==> WellFormed(lex, raw)) && DistinctIds(TasksOf(raws))
    ensures r.Ok? ==> r.value == TasksOf(raws)
    ensures r.Err? ==> !r.error.DependencyCycle?
  {
    hide WellFormed, TaskOf;
    var tasks: seq<Task> := [];
    var taken: set<string> := {};
    for k := 0 to |raws|
      invariant forall n :: 0 <= n < k ==> WellFormed(lex, raws[n])
      invariant tasks == TasksOf(raws)[..k] && DistinctIds(tasks)
      invariant taken == (set t | t in tasks :: t.id)
    {
      var task := ReadTask(lex, raws[k], taken);
      assert TasksOf(raws)[k] == TaskOf(raws[k]);
      if task.Err? {
        if TaskOf(raws[k]).id in taken {
          var n :| 0 <= n < k && tasks[n].id == TaskOf(raws[k]).id;
          assert TasksOf(raws)[n].id == TasksOf(raws)[k].id;
        }
        return Err(task.error);
      }
      tasks, taken := tasks + [task.value], taken + {task.value.id};
    }
    return Ok(tasks);
  }

  method CheckDependencies(tasks: seq<Task>) returns (known: bool)
    ensures known <==> DependenciesKnown(tasks)
  {
    var ids := set t | t in tasks :: t.id;
    for k := 0 to |tasks|
      invariant forall n, d :: 0 <= n < k && d in tasks[n].dependsOn ==> d in ids
    {
      if exists d :: d in tasks[k].dependsOn && d !in ids {
        return false;
      }
    }
    forall t, d | t in tasks && d in t.dependsOn ensures exists u :: u in tasks && u.id == d {
      var n :| 0 <= n < |tasks| && tasks[n] == t;
      assert d in tasks[n].dependsOn && d in ids;
    }
    return true;
  }

  /** `validate_plan_artifact`: it accepts exactly the acceptable payloads, so every accepted
      plan can be executed in some order; a cycle it reports is one. */
  method ValidatePlan(lex: Lexicon, v: Json) returns (r: Result<Plan>)
    ensures r.Ok? <==> Acceptable(lex, v)
    ensures r.Ok? ==> exists order :: Executable(r.value.tasks, order)
    ensures r.Ok? ==>
      && r.value.solution == Text(v.Get("solution", Null))
      && r.value.tasks == TasksOf(v.Get("tasks", Null).items)
      && r.value.pointers == var p := v.Get("relevant_pointers", Null); if p.Arr? then Texts(p.items) else []
    ensures r.Err? && r.error.DependencyCycle? ==>
      v.Get("tasks", Null).Arr? && Cycle(TasksOf(v.Get("tasks", Null).items), r.error.cycle)
  {
    hide WellFormed, Executable, Cycle, TasksOf, Pointers;
    var solution := BoundedText(lex, v.Get("solution", Null), "solution");
    if solution.Err? { return Err(solution.error); }
    if lex.placeholder(solution.value) { return Err(Placeholder("solution")); }
    var raws := v.Get("tasks", Null);
    if !raws.Arr? || raws.items == [] { return Err(NoTasks); }
    if |raws.items| > MAX_TASKS { return Err(TooManyTasks); }
    var tasks := ReadTasks(lex, raws.items);
    if tasks.Err? { return Err(tasks.error); }
    var known := CheckDependencies(tasks.value);
    if !known { return Err(UnknownDependency); }
    var cycle := FindDagCycle(tasks.value);
    if cycle.Some? { return Err(DependencyCycle(cycle.value)); }
    var pointers := ReadPointers(lex, v.Get("relevant_pointers", Null));
    if pointers.Err? { return Err(pointers.error); }
    return Ok(Plan(solution.value, tasks.value, pointers.value));
  }
}
