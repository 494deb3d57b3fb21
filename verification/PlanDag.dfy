/** The dependency graph of a plan: the depth-first search for a dependency cycle.

    `FindDagCycle` returns a cycle exactly when the graph has one; when it returns none the
    tasks can be executed in some order. */
module PlanDag {
  import opened Wrappers

  datatype Kind = Behavior | Bug | Refactor | Docs | Config | Style

  datatype Task = Task(id: string, title: string, kind: Kind, acceptance: string,
                       dependsOn: seq<string>, commands: seq<string>)

  /** The tasks keyed by id: of several tasks with one id the last wins. */
  function ById(tasks: seq<Task>): (byId: map<string, Task>)
    ensures forall id :: id in byId ==> byId[id] in tasks && byId[id].id == id
    ensures forall t :: t in tasks ==> t.id in byId
  {
    if tasks == [] then map[]
    else
      var last := tasks[|tasks| - 1];
      assert tasks == tasks[..|tasks| - 1] + [last];
      ById(tasks[..|tasks| - 1])[last.id := last]
  }

  function Deps(tasks: seq<Task>, id: string): seq<string> {
    var byId := ById(tasks);
    if id in byId then byId[id].dependsOn else []
  }

  /** Every id the search can meet: those of the tasks and those they name. */
  function Ids(tasks: seq<Task>): set<string> {
    (set t | t in tasks :: t.id) + (set t, d | t in tasks && d in t.dependsOn :: d)
  }

  predicate Edge(tasks: seq<Task>, a: string, b: string) { b in Deps(tasks, a) }

  ghost predicate Walk(tasks: seq<Task>, p: seq<string>) {
    forall i :: 0 <= i < |p| - 1 ==> Edge(tasks, p[i], p[i + 1])
  }

  /** A walk along dependencies that comes back to where it started. */
  ghost predicate ClosedWalk(tasks: seq<Task>, p: seq<string>) {
    |p| >= 2 && p[0] == p[|p| - 1] && Walk(tasks, p)
  }

  ghost predicate Distinct<T>(s: seq<T>) { forall i, j :: 0 <= i < j < |s| ==> s[i] != s[j] }

  /** A closed walk that meets no id twice on the way, starting at a task or at a named id. */
  ghost predicate Cycle(tasks: seq<Task>, p: seq<string>) {
    ClosedWalk(tasks, p) && Distinct(p[1..])
  }

  /** Every dependency of an id in the order comes before it. */
  ghost predicate Topological(tasks: seq<Task>, order: seq<string>) {
    Distinct(order) && forall i, d :: 0 <= i < |order| && d in Deps(tasks, order[i]) ==> d in order[..i]
  }

  /** An order the tasks can be executed in: topological, and every task is in it. */
  ghost predicate Executable(tasks: seq<Task>, order: seq<string>) {
    Topological(tasks, order) && forall t :: t in tasks ==> t.id in order
  }

  // ---- a topological order and a cycle exclude each other --------------------------------

  lemma {:induction false} WalkGoesBack(tasks: seq<Task>, order: seq<string>, p: seq<string>, i: nat)
    requires Topological(tasks, order) && Walk(tasks, p)
    requires |p| >= 2 && i < |order| && order[i] == p[0]
    ensures p[|p| - 1] in order[..i]
    decreases |p|
  {
    assert Edge(tasks, p[0], p[1]);
    var j :| 0 <= j < i && order[j] == p[1];
    if |p| > 2 {
      assert Walk(tasks, p[1..]) by {
        forall k | 0 <= k < |p[1..]| - 1 ensures Edge(tasks, p[1..][k], p[1..][k + 1]) {
          assert Edge(tasks, p[k + 1], p[k + 2]);
        }
      }
      WalkGoesBack(tasks, order, p[1..], j);
      assert order[..j] <= order[..i];
    }
  }

  /** The start of an edge is the id of a task. */
  lemma EdgeStartsAtTask(tasks: seq<Task>, a: string, b: string)
    requires Edge(tasks, a, b)
    ensures exists t :: t in tasks && t.id == a
  {
    assert ById(tasks)[a] in tasks;
  }

  /** A plan that can be executed has no cycle of dependencies, not even one that repeats ids. */
  lemma ExecutableIsAcyclic(tasks: seq<Task>, order: seq<string>, p: seq<string>)
    requires Executable(tasks, order)
    ensures !ClosedWalk(tasks, p)
  {
    if ClosedWalk(tasks, p) {
      assert Edge(tasks, p[0], p[1]);
      EdgeStartsAtTask(tasks, p[0], p[1]);
      var i :| 0 <= i < |order| && order[i] == p[0];
      WalkGoesBack(tasks, order, p, i);
      assert false;
    }
  }

  lemma Extends(tasks: seq<Task>, order: seq<string>, id: string)
    requires Topological(tasks, order) && id !in order
    requires forall d :: d in Deps(tasks, id) ==> d in order
    ensures Topological(tasks, order + [id])
    ensures (set x | x in order + [id]) == (set x | x in order) + {id}
  {
    hide Deps;
    var longer := order + [id];
    forall i, d | 0 <= i < |longer| && d in Deps(tasks, longer[i]) ensures d in longer[..i] {
      assert longer[..i] == order[..i];
    }
  }

  lemma Shortens(tasks: seq<Task>, path: seq<string>)
    requires Walk(tasks, path) && Distinct(path) && path != []
    ensures var rest := path[..|path| - 1];
      Walk(tasks, rest) && Distinct(rest)
      && (set x | x in rest) == (set x | x in path) - {path[|path| - 1]}
  {
    hide Deps;
    assert path == path[..|path| - 1] + [path[|path| - 1]];
    assert forall k :: 0 <= k < |path| - 1 ==> path[k] != path[|path| - 1];
  }

  // ---- the search --------------------------------------------------------------------

  class CycleFinder {
    const tasks: seq<Task>
    var visiting: set<string>
    var done: set<string>
    var stack: seq<string>
    ghost var order: seq<string>

    constructor (tasks: seq<Task>)
      ensures Valid() && this.tasks == tasks && stack == [] && done == {}
    {
      this.tasks := tasks;
      visiting, done, stack, order := {}, {}, [], [];
    }

    /** The stack is the path to the current id; what is done is in topological order. */
    ghost predicate Valid()
      reads this
    {
      && Distinct(stack) && Walk(tasks, stack)
      && visiting == (set id | id in stack)
      && done == (set id | id in order)
      && visiting !! done
      && Topological(tasks, order)
    }

    /** The id may be visited now: it is where the path's last id leads, or the path is empty. */
    predicate Next(id: string)
      reads this
    {
      id in Ids(tasks) && (stack != [] ==> Edge(tasks, stack[|stack| - 1], id))
    }

    method Enter(id: string)
      requires Valid() && id !in visiting && id !in done && Next(id)
      modifies this`visiting, this`stack
      ensures Valid() && stack == old(stack) + [id] && visiting == old(visiting) + {id}
    {
      hide Deps;
      visiting, stack := visiting + {id}, stack + [id];
    }

    /** Take the last id off the path: all its dependencies are done. */
    method Leave(id: string)
      requires Valid() && stack != [] && stack[|stack| - 1] == id
      requires forall d :: d in Deps(tasks, id) ==> d in done
      modifies this
      ensures Valid() && stack == old(stack)[..|old(stack)| - 1]
      ensures done == old(done) + {id} && visiting == old(visiting) - {id}
    {
      hide Topological, Walk, Deps;
      assert id in visiting;
      Extends(tasks, order, id);
      Shortens(tasks, stack);
      stack, visiting := stack[..|stack| - 1], visiting - {id};
      done, order := done + {id}, order + [id];
    }

    /** The id is on the path already: the path from it back to it is a cycle. */
    method Cut(id: string) returns (cycle: seq<string>)
      requires Valid() && id in visiting && Next(id)
      ensures Cycle(tasks, cycle) && cycle[0] == id
    {
      hide Deps, Topological;
      var start := IndexOf(stack, id);
      cycle := stack[start..] + [id];
      forall i | 0 <= i < |cycle| - 1 ensures Edge(tasks, cycle[i], cycle[i + 1]) {
        assert cycle[i] == stack[start + i];
        if i < |cycle| - 2 { assert Edge(tasks, stack[start + i], stack[start + i + 1]); }
      }
      forall i, j | 0 <= i < j < |cycle[1..]| ensures cycle[1..][i] != cycle[1..][j] {
        assert cycle[1..][i] == stack[start + i + 1];
      }
    }

    /** `visit`: a cycle through this id's descendants, or everything below it is done. */
    method Visit(id: string) returns (cycle: Option<seq<string>>)
      requires Valid() && Next(id)
      modifies this
      ensures cycle.Some? ==> Cycle(tasks, cycle.value)
      ensures cycle.None? ==> Valid() && stack == old(stack) && visiting == old(visiting)
      ensures cycle.None? ==> old(done) + {id} <= done
      decreases Ids(tasks) - visiting - done
    {
      hide Valid, Topological, Walk, Distinct, Cycle, Ids, Deps;
      if id in done { return None; }
      if id in visiting {
        var closed := Cut(id);
        return Some(closed);
      }
      assert id in Ids(tasks);
      ghost var left := Ids(tasks) - visiting - done;
      Enter(id);
      ghost var path, now := stack, visiting;
      var deps := Deps(tasks, id);
      for k := 0 to |deps|
        invariant Valid() && stack == path && visiting == now && old(done) <= done
        invariant forall n :: 0 <= n < k ==> deps[n] in done
      {
        DepsAreIds(tasks, id, deps[k]);
        assert Ids(tasks) - visiting - done <= left - {id};
        cycle := Visit(deps[k]);
        if cycle.Some? { return; }
      }
      Leave(id);
      return None;
    }
  }

  function IndexOf(s: seq<string>, x: string): (k: nat)
    requires x in s
    ensures k < |s| && s[k] == x && x !in s[..k]
  {
    if s[0] == x then 0
    else
      var k := 1 + IndexOf(s[1..], x);
      assert s[..k] == [s[0]] + s[1..][..k - 1];
      k
  }

  lemma DepsAreIds(tasks: seq<Task>, id: string, d: string)
    requires d in Deps(tasks, id)
    ensures d in Ids(tasks)
  {
  }

  /** A cycle is returned exactly when there is a closed walk; without one the tasks can be
      executed in some order, and they cannot when there is one. */
  method FindDagCycle(tasks: seq<Task>) returns (cycle: Option<seq<string>>)
    ensures cycle.Some? ==> Cycle(tasks, cycle.value)
    ensures cycle.Some? <==> exists p :: ClosedWalk(tasks, p)
    ensures cycle.None? <==> exists order :: Executable(tasks, order)
  {
    hide Topological, Walk, Distinct, Deps;
    var finder := new CycleFinder(tasks);
    for k := 0 to |tasks|
      invariant finder.Valid() && finder.stack == [] && finder.tasks == tasks && fresh(finder)
      invariant forall n :: 0 <= n < k ==> tasks[n].id in finder.done
    {
      cycle := finder.Visit(tasks[k].id);
      if cycle.Some? {
        forall order ensures !Executable(tasks, order) {
          if Executable(tasks, order) { ExecutableIsAcyclic(tasks, order, cycle.value); }
        }
        return;
      }
    }
    assert Executable(tasks, finder.order);
    forall p ensures !ClosedWalk(tasks, p) { ExecutableIsAcyclic(tasks, finder.order, p); }
    return None;
  }
}
