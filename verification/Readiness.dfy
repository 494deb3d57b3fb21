/** The readiness of a work item: nine predicates computed from document digests, confirmations and
    execution evidence. Nothing about a stage is stored; the empty string is "no digest". */
module Readiness {
  import opened Wrappers

  type Digest = string

  datatype Kind = TaskDoc | SpecDoc | PlanDoc | TodoDoc | ReportDoc

  datatype Gate = TaskGate | SpecGate | PlanGate

  datatype Fact = Fact(current: Digest, recorded: Digest)
  {
    /** The file in the workspace is the one the runtime recorded. */
    predicate Current() { current != "" && current == recorded }
  }

  datatype WorkspaceFact = WorkspaceFact(
    revision: string, documents: set<Digest>, evidence: Digest, execution: string, passed: bool)
  {
    predicate Fresh(now: Option<string>, sources: Option<set<Digest>>) {
      passed && now.Some? && now.value != "" && now.value == revision
      && sources.Some? && documents == sources.value && evidence != "" && execution != ""
    }
  }

  datatype ReviewFact = ReviewFact(requirement: WorkspaceFact, code: WorkspaceFact, noRequiredFindings: bool)
  {
    predicate Fresh(now: Option<string>, sources: Option<set<Digest>>) {
      noRequiredFindings && requirement.execution != code.execution
      && requirement.Fresh(now, sources) && code.Fresh(now, sources)
    }
  }

  datatype ReportFact = ReportFact(document: Digest, sources: set<Digest>)

  datatype CompletionFact = CompletionFact(noPending: bool, noUnknown: bool)

  datatype Inputs = Inputs(
    documents: map<Kind, Fact>, confirmations: map<Gate, seq<set<Digest>>>, revision: Option<string>,
    implementation: Option<WorkspaceFact>, verification: Option<WorkspaceFact>,
    review: Option<ReviewFact>, report: Option<ReportFact>, completion: Option<CompletionFact>)
  {
    function Doc(kind: Kind): Option<Fact> { if kind in documents then Some(documents[kind]) else None }

    function Groups(gate: Gate): seq<set<Digest>> { if gate in confirmations then confirmations[gate] else [] }
  }

  datatype Readiness = Readiness(
    taskConfirmed: bool, specConfirmed: bool, planConfirmed: bool, todoExecutable: bool,
    implementationCurrent: bool, verificationFresh: bool, reviewFresh: bool, reportCurrent: bool, complete: bool)
  {
    function Stages(): seq<bool> {
      [taskConfirmed, specConfirmed, planConfirmed, todoExecutable, implementationCurrent,
       verificationFresh, reviewFresh, reportCurrent, complete]
    }

    predicate All() { forall k :: 0 <= k < 9 ==> Stages()[k] }
  }

  datatype Action = DoTask | DoSpec | DoPlan | DoTodo | Implement | Verify | Review | Report | Complete | Completed

  function NextAction(r: Readiness): Action {
    if !r.taskConfirmed then DoTask
    else if !r.specConfirmed then DoSpec
    else if !r.planConfirmed then DoPlan
    else if !r.todoExecutable then DoTodo
    else if !r.implementationCurrent then Implement
    else if !r.verificationFresh then Verify
    else if !r.reviewFresh then Review
    else if !r.reportCurrent then Report
    else if !r.complete then Complete
    else Completed
  }

  const ACTIONS: seq<Action> := [DoTask, DoSpec, DoPlan, DoTodo, Implement, Verify, Review, Report, Complete, Completed]

  // ---- the resolver ------------------------------------------------------------------------

  function CurrentDigests(facts: seq<Option<Fact>>): set<Digest> {
    set f | f in facts && f.Some? && f.value.Current() :: f.value.current
  }

  /** `_confirmed_group`: enough distinct current digests, all in one confirmation. */
  predicate ConfirmedGroup(facts: seq<Option<Fact>>, groups: seq<set<Digest>>) {
    facts != [] && |CurrentDigests(facts)| == |facts| && exists g :: g in groups && CurrentDigests(facts) <= g
  }

  predicate AllCurrent(facts: seq<Option<Fact>>) {
    forall i :: 0 <= i < |facts| ==> facts[i].Some? && facts[i].value.Current()
  }

  /** `_current_document_digests` for the four documents the implementation is made from. */
  function SourceDigests(inputs: Inputs): Option<set<Digest>> {
    var facts := [inputs.Doc(TaskDoc), inputs.Doc(SpecDoc), inputs.Doc(PlanDoc), inputs.Doc(TodoDoc)];
    if AllCurrent(facts) && |CurrentDigests(facts)| == 4 then Some(CurrentDigests(facts)) else None
  }

  /** `_report_is_current`. */
  predicate ReportIsCurrent(inputs: Inputs) {
    && inputs.Doc(ReportDoc).Some? && inputs.Doc(ReportDoc).value.Current()
    && inputs.report.Some? && SourceDigests(inputs).Some? && inputs.verification.Some? && inputs.review.Some?
    && inputs.report.value.document == inputs.Doc(ReportDoc).value.current
    && inputs.report.value.sources == SourceDigests(inputs).value
         + {inputs.verification.value.evidence, inputs.review.value.requirement.evidence, inputs.review.value.code.evidence}
  }

  function Resolve(inputs: Inputs): Readiness {
    var task, spec, plan := inputs.Doc(TaskDoc), inputs.Doc(SpecDoc), inputs.Doc(PlanDoc);
    var taskConfirmed := ConfirmedGroup([task], inputs.Groups(TaskGate));
    var specConfirmed := taskConfirmed && ConfirmedGroup([task, spec], inputs.Groups(SpecGate));
    var planConfirmed := specConfirmed && ConfirmedGroup([plan], inputs.Groups(PlanGate));
    var sources := SourceDigests(inputs);
    var todoExecutable := planConfirmed && sources.Some?;
    var implementationCurrent :=
      todoExecutable && inputs.implementation.Some? && inputs.implementation.value.Fresh(inputs.revision, sources);
    var verificationFresh :=
      implementationCurrent && inputs.verification.Some? && inputs.verification.value.Fresh(inputs.revision, sources);
    var reviewFresh := verificationFresh && inputs.review.Some? && inputs.review.value.Fresh(inputs.revision, sources);
    var reportCurrent := reviewFresh && ReportIsCurrent(inputs);
    var complete := reportCurrent && inputs.completion.Some?
                    && inputs.completion.value.noPending && inputs.completion.value.noUnknown;
    Readiness(taskConfirmed, specConfirmed, planConfirmed, todoExecutable, implementationCurrent,
              verificationFresh, reviewFresh, reportCurrent, complete)
  }

  // ---- what the digest counts mean ------------------------------------------------------------

  ghost predicate DistinctDigests(facts: seq<Option<Fact>>)
    requires AllCurrent(facts)
  {
    forall i, j :: 0 <= i < j < |facts| ==> facts[i].value.current != facts[j].value.current
  }

  function DigestOf(f: Option<Fact>): set<Digest> {
    if f.Some? && f.value.Current() then {f.value.current} else {}
  }

  lemma OneMoreFact(front: seq<Option<Fact>>, last: Option<Fact>)
    ensures CurrentDigests(front + [last]) == CurrentDigests(front) + DigestOf(last)
  {
  }

  /** Current and with different digests: the same for all of them as for the front and the last. */
  lemma OneMoreDistinct(front: seq<Option<Fact>>, last: Option<Fact>)
    ensures AllCurrent(front + [last]) && DistinctDigests(front + [last]) <==>
      && AllCurrent(front) && DistinctDigests(front)
      && last.Some? && last.value.Current() && last.value.current !in CurrentDigests(front)
  {
    var facts := front + [last];
    if AllCurrent(facts) {
      assert facts[|front|] == last;
      assert forall i :: 0 <= i < |front| ==> facts[i] == front[i];
      assert AllCurrent(front);
      if last.value.current in CurrentDigests(front) {
        var f :| f in front && f.Some? && f.value.Current() && f.value.current == last.value.current;
        var i :| 0 <= i < |front| && front[i] == f;
        assert facts[i].value.current == facts[|front|].value.current;
      }
    }
  }

  lemma {:induction false} AtMostAsMany(facts: seq<Option<Fact>>)
    ensures |CurrentDigests(facts)| <= |facts|
    ensures |CurrentDigests(facts)| == |facts| <==> AllCurrent(facts) && DistinctDigests(facts)
  {
    if facts != [] {
      var n := |facts| - 1;
      var front, last := facts[..n], facts[n];
      assert facts == front + [last];
      AtMostAsMany(front);
      OneMoreFact(front, last);
      OneMoreDistinct(front, last);
    } else {
      assert CurrentDigests(facts) == {};
    }
  }

  /** A gate is passed exactly when every document of the group is there and current, their digests
      differ, and a single confirmation names them all. */
  lemma ConfirmedExactly(facts: seq<Option<Fact>>, groups: seq<set<Digest>>)
    ensures ConfirmedGroup(facts, groups) <==>
      && facts != [] && AllCurrent(facts) && DistinctDigests(facts)
      && exists g :: g in groups && forall i :: 0 <= i < |facts| ==> facts[i].value.current in g
  {
    AtMostAsMany(facts);
    if facts != [] && AllCurrent(facts) && DistinctDigests(facts) {
      forall g | g in groups
        ensures CurrentDigests(facts) <= g <==> forall i :: 0 <= i < |facts| ==> facts[i].value.current in g
      {
        forall i | 0 <= i < |facts| ensures facts[i].value.current in CurrentDigests(facts) {
          assert facts[i] in facts;
        }
      }
    }
  }

  // ---- the chain --------------------------------------------------------------------------

  /** Every predicate implies all before it, and the next action is the first one that fails. */
  lemma ChainIsOrdered(inputs: Inputs)
    ensures var stages := Resolve(inputs).Stages();
      && (forall i, j :: 0 <= i < j < 9 && stages[j] ==> stages[i])
      && var k := FirstFalse(stages);
         NextAction(Resolve(inputs)) == ACTIONS[k] && (forall i :: 0 <= i < 9 ==> (stages[i] <==> i < k))
  {
    var r := Resolve(inputs);
    var stages := r.Stages();
    assert stages[0] == r.taskConfirmed && stages[1] == r.specConfirmed && stages[2] == r.planConfirmed;
    assert stages[3] == r.todoExecutable && stages[4] == r.implementationCurrent && stages[5] == r.verificationFresh;
    assert stages[6] == r.reviewFresh && stages[7] == r.reportCurrent && stages[8] == r.complete;
  }

  function FirstFalse(stages: seq<bool>): (k: nat)
    ensures k <= |stages| && (k < |stages| ==> !stages[k]) && forall i :: 0 <= i < k ==> stages[i]
  {
    if stages == [] || !stages[0] then 0 else 1 + FirstFalse(stages[1..])
  }
}
