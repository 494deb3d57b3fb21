/** What the work item engine computes readiness from, and what editing a document, reconciling and
    writing a report do to it. */
module WorkItemEngine {
  import opened Wrappers
  import opened Readiness

  /** Evidence rows of one kind, oldest first; a payload that cannot be read is none. */
  datatype Evidence<+T> = Evidence(digest: Digest, payload: Option<T>)

  datatype WorkspacePayload = WorkspacePayload(revision: string, documents: seq<Digest>, execution: string, passed: bool)

  datatype ReviewPayload = ReviewPayload(
    revision: string, documents: seq<Digest>, requirement: (string, bool), code: (string, bool), noRequiredFindings: bool)

  datatype ReportPayload = ReportPayload(document: Digest, sources: seq<Digest>)

  datatype Effect = Intent | Confirmed | Unknown

  datatype Status = Active | WaitingUser | Blocked | CompletedItem | Abandoned
  {
    predicate Terminal() { CompletedItem? || Abandoned? }
  }

  datatype Item = Item(revision: nat, status: Status)

  /** The workspace documents, what the store recorded of them, and the store's facts. */
  datatype World = World(
    docs: map<Kind, Digest>, recorded: map<Kind, Digest>, confirmations: map<Gate, seq<set<Digest>>>,
    revision: Option<string>,
    implementation: seq<Evidence<WorkspacePayload>>, verification: seq<Evidence<WorkspacePayload>>,
    review: seq<Evidence<ReviewPayload>>, report: seq<Evidence<ReportPayload>>,
    effects: Option<seq<Effect>>, item: Option<Item>)

  function Digests(s: seq<Digest>): set<Digest> { set d | d in s }

  function Last<T>(s: seq<Evidence<T>>): Option<Evidence<T>> { if s == [] then None else Some(s[|s| - 1]) }

  /** `_workspace_fact`. */
  function WorkspaceFactOf(records: seq<Evidence<WorkspacePayload>>): Option<WorkspaceFact> {
    var last := Last(records);
    if last.None? || last.value.payload.None? then None
    else
      var p := last.value.payload.value;
      Some(WorkspaceFact(p.revision, Digests(p.documents), last.value.digest, p.execution, p.passed))
  }

  /** `_review_fact`: both axes carry the digest of the one review record. */
  function ReviewFactOf(records: seq<Evidence<ReviewPayload>>): Option<ReviewFact> {
    var last := Last(records);
    if last.None? || last.value.payload.None? then None
    else
      var p := last.value.payload.value;
      Some(ReviewFact(
        WorkspaceFact(p.revision, Digests(p.documents), last.value.digest, p.requirement.0, p.requirement.1),
        WorkspaceFact(p.revision, Digests(p.documents), last.value.digest, p.code.0, p.code.1),
        p.noRequiredFindings))
  }

  function ReportFactOf(records: seq<Evidence<ReportPayload>>): Option<ReportFact> {
    var last := Last(records);
    if last.None? || last.value.payload.None? then None
    else Some(ReportFact(last.value.payload.value.document, Digests(last.value.payload.value.sources)))
  }

  /** `_completion_fact`: an effect ledger that cannot be read blocks completion. */
  function CompletionFactOf(effects: Option<seq<Effect>>): CompletionFact {
    if effects.None? then CompletionFact(false, false)
    else CompletionFact(Intent !in effects.value, Unknown !in effects.value)
  }

  const KINDS: seq<Kind> := [TaskDoc, SpecDoc, PlanDoc, TodoDoc, ReportDoc]

  function Facts(w: World): map<Kind, Fact> {
    map k: Kind | k in KINDS ::
      Fact(if k in w.docs then w.docs[k] else "", if k in w.recorded then w.recorded[k] else "")
  }

  /** What `_compute_readiness` hands to the resolver when nobody disturbs it. */
  function InputsOf(w: World): Inputs {
    Inputs(Facts(w), w.confirmations, w.revision, WorkspaceFactOf(w.implementation),
           WorkspaceFactOf(w.verification), ReviewFactOf(w.review), ReportFactOf(w.report),
           Some(CompletionFactOf(w.effects)))
  }

  function Compute(w: World): Readiness { Resolve(InputsOf(w)) }

  // ---- a reading that others may disturb -------------------------------------------------------

  /** The reads of `_compute_readiness`, in order: the references, the five documents, the three
      gates, the revision, the four kinds of evidence, the effects. */
  const READS := 15

  function DocumentRead(kind: Kind): (n: nat)
    ensures 1 <= n <= 5
  {
    match kind case TaskDoc => 1 case SpecDoc => 2 case PlanDoc => 3 case TodoDoc => 4 case ReportDoc => 5
  }

  function GateRead(gate: Gate): (n: nat)
    ensures 6 <= n <= 8
  {
    match gate case TaskGate => 6 case SpecGate => 7 case PlanGate => 8
  }

  const GATES: seq<Gate> := [TaskGate, SpecGate, PlanGate]

  function DocsRead(s: seq<World>): map<Kind, Digest>
    requires |s| == READS
  {
    map kind: Kind | kind in KINDS && kind in s[DocumentRead(kind)].docs :: s[DocumentRead(kind)].docs[kind]
  }

  function GroupsRead(s: seq<World>): map<Gate, seq<set<Digest>>>
    requires |s| == READS
  {
    map g: Gate | g in GATES && g in s[GateRead(g)].confirmations :: s[GateRead(g)].confirmations[g]
  }

  /** The world as a computation sees it whose read number `k` is made in the state `s[k]`. */
  function Patchwork(s: seq<World>): World
    requires |s| == READS
  {
    World(DocsRead(s), s[0].recorded, GroupsRead(s), s[9].revision, s[10].implementation, s[11].verification,
          s[12].review, s[13].report, s[14].effects, s[0].item)
  }

  lemma UndisturbedReading(s: seq<World>, w: World)
    requires |s| == READS && forall k :: 0 <= k < READS ==> s[k] == w
    ensures Patchwork(s) == w
  {
    hide DocumentRead, GateRead;
    forall kind: Kind ensures kind in KINDS { KindsAreAll(kind); }
    forall g: Gate ensures g in GATES { GatesAreAll(g); }
    assert DocsRead(s) == w.docs;
    assert GroupsRead(s) == w.confirmations;
  }

  lemma GatesAreAll(gate: Gate)
    ensures gate in GATES
  {
    assert GATES[0] == TaskGate && GATES[1] == SpecGate && GATES[2] == PlanGate;
    match gate case TaskGate => case SpecGate => case PlanGate =>
  }

  const FOUR: seq<Digest> := ["t", "s", "p", "d"]
  const DONE := WorkspacePayload("rev", FOUR, "run", true)

  /** A small work item that is ready to be completed. */
  const READY := World(
    map[TaskDoc := "t", SpecDoc := "s", PlanDoc := "p", TodoDoc := "d", ReportDoc := "r"],
    map[TaskDoc := "t", SpecDoc := "s", PlanDoc := "p", TodoDoc := "d", ReportDoc := "r"],
    map[TaskGate := [{"t"}], SpecGate := [{"t", "s"}], PlanGate := [{"p", "d"}]],
    Some("rev"), [Evidence("i", Some(DONE))], [Evidence("v", Some(DONE))],
    [Evidence("w", Some(ReviewPayload("rev", FOUR, ("one", true), ("two", true), true)))],
    [Evidence("x", Some(ReportPayload("r", FOUR + ["v", "w"])))], Some([]), Some(Item(1, Active)))

  const TASK := Some(Fact("t", "t"))
  const SPEC := Some(Fact("s", "s"))
  const PLAN := Some(Fact("p", "p"))
  const TODO := Some(Fact("d", "d"))

  lemma ReadyDocuments()
    ensures var inputs := InputsOf(READY);
      && inputs.Doc(TaskDoc) == TASK && inputs.Doc(SpecDoc) == SPEC && inputs.Doc(PlanDoc) == PLAN
      && inputs.Doc(TodoDoc) == TODO && inputs.Doc(ReportDoc) == Some(Fact("r", "r"))
  {
    hide WorkspaceFactOf, ReviewFactOf, ReportFactOf, CompletionFactOf, Digests;
    forall kind: Kind ensures kind in KINDS { KindsAreAll(kind); }
  }

  lemma FourDiffer()
    ensures "t" != "s" && "t" != "p" && "t" != "d" && "s" != "p" && "s" != "d" && "p" != "d"
  {
    assert "t"[0] != "s"[0] && "t"[0] != "p"[0] && "t"[0] != "d"[0] && "s"[0] != "p"[0] && "s"[0] != "d"[0] && "p"[0] != "d"[0];
  }

  lemma ReadyGates()
    ensures ConfirmedGroup([TASK], [{"t"}]) && ConfirmedGroup([TASK, SPEC], [{"t", "s"}])
    ensures ConfirmedGroup([PLAN], [{"p", "d"}])
  {
    hide ConfirmedGroup, CurrentDigests;
    FourDiffer();
    ConfirmedExactly([TASK], [{"t"}]);
    ConfirmedExactly([TASK, SPEC], [{"t", "s"}]);
    ConfirmedExactly([PLAN], [{"p", "d"}]);
    assert {"t"} in [{"t"}] && {"t", "s"} in [{"t", "s"}] && {"p", "d"} in [{"p", "d"}];
  }

  lemma ReadySources()
    ensures SourceDigests(InputsOf(READY)) == Some({"t", "s", "p", "d"}) && Digests(FOUR) == {"t", "s", "p", "d"}
    ensures Digests(FOUR + ["v", "w"]) == {"t", "s", "p", "d"} + {"v", "w"}
  {
    hide InputsOf, CurrentDigests;
    ReadyDocuments();
    FourDiffer();
    var four := [TASK, SPEC, PLAN, TODO];
    assert AllCurrent(four) && DistinctDigests(four);
    AtMostAsMany(four);
    FourDigests(four);
    var six := FOUR + ["v", "w"];
    assert six == ["t", "s", "p", "d", "v", "w"];
    forall i | 0 <= i < 6 ensures six[i] in Digests(six) { }
    forall i | 0 <= i < 4 ensures FOUR[i] in Digests(FOUR) { }
  }

  lemma ReadyIsReady()
    ensures Compute(READY).All()
  {
    hide SourceDigests, ConfirmedGroup, InputsOf;
    var inputs := InputsOf(READY);
    ReadyDocuments();
    ReadyGates();
    ReadySources();
    ReadyEvidence();
    var stages := Resolve(inputs).Stages();
    assert Resolve(inputs).complete;
    ChainIsOrdered(inputs);
    assert stages[8];
  }

  lemma ReadyEvidence()
    ensures var inputs, done := InputsOf(READY), WorkspaceFact("rev", Digests(FOUR), "i", "run", true);
      && inputs.revision == Some("rev") && inputs.implementation == Some(done)
      && inputs.verification == Some(done.(evidence := "v"))
      && inputs.review == Some(ReviewFact(done.(evidence := "w", execution := "one"), done.(evidence := "w", execution := "two"), true))
      && inputs.report == Some(ReportFact("r", Digests(FOUR + ["v", "w"]))) && inputs.completion == Some(CompletionFact(true, true))
      && inputs.Groups(TaskGate) == [{"t"}] && inputs.Groups(SpecGate) == [{"t", "s"}] && inputs.Groups(PlanGate) == [{"p", "d"}]
      && "one" != "two"
  {
    hide Facts, Digests;
    assert "one"[0] != "two"[0];
  }

  /** Two edits between the reads: the task is read while the spec is stale, and the spec while the
      task is. */
  function Torn(w: World, task: Digest, spec: Digest): (s: seq<World>)
    ensures |s| == READS
    ensures forall k :: 0 <= k < READS ==> s[k] == if k < 2 then Edited(w, SpecDoc, spec) else Edited(w, TaskDoc, task)
  {
    seq(READS, k => if k < 2 then Edited(w, SpecDoc, spec) else Edited(w, TaskDoc, task))
  }

  /** What is computed from several reads need not hold in any one state: a torn reading of a work
      item that is ready has all nine predicates, and none of the states it was read from has even
      the second. */
  lemma TornReading(w: World, task: Digest, spec: Digest)
    requires Compute(w).All() && TaskDoc in w.docs && SpecDoc in w.docs
    requires TaskDoc !in w.recorded || w.recorded[TaskDoc] != task
    requires SpecDoc !in w.recorded || w.recorded[SpecDoc] != spec
    ensures Compute(Patchwork(Torn(w, task, spec))).All()
    ensures forall k :: 0 <= k < READS ==> !Compute(Torn(w, task, spec)[k]).specConfirmed
  {
    hide Compute;
    var s := Torn(w, task, spec);
    TornLooksWhole(w, task, spec);
    forall k | 0 <= k < READS ensures !Compute(s[k]).specConfirmed {
      if k < 2 { EditInvalidates(w, SpecDoc, spec); } else { EditInvalidates(w, TaskDoc, task); }
      assert !Compute(s[k]).Stages()[1];
    }
  }

  lemma TornAt(w: World, task: Digest, spec: Digest, kind: Kind)
    requires TaskDoc in w.docs && SpecDoc in w.docs
    ensures var docs := Torn(w, task, spec)[DocumentRead(kind)].docs;
      (kind in docs <==> kind in w.docs) && (kind in docs ==> docs[kind] == w.docs[kind])
  {
    match kind case TaskDoc => case SpecDoc => case PlanDoc => case TodoDoc => case ReportDoc =>
  }

  lemma TornAside(w: World, task: Digest, spec: Digest)
    ensures forall k :: 0 <= k < READS ==> Torn(w, task, spec)[k] == w.(docs := Torn(w, task, spec)[k].docs)
  {
  }

  lemma TornLooksWhole(w: World, task: Digest, spec: Digest)
    requires TaskDoc in w.docs && SpecDoc in w.docs
    ensures Patchwork(Torn(w, task, spec)) == w
  {
    hide Torn, Edited, DocumentRead, GateRead;
    var s := Torn(w, task, spec);
    forall kind: Kind
      ensures kind in KINDS
      ensures var docs := s[DocumentRead(kind)].docs;
        (kind in docs <==> kind in w.docs) && (kind in docs ==> docs[kind] == w.docs[kind])
    {
      KindsAreAll(kind);
      TornAt(w, task, spec, kind);
    }
    forall g: Gate ensures g in GATES { GatesAreAll(g); }
    TornAside(w, task, spec);
    assert DocsRead(s) == w.docs;
    assert GroupsRead(s) == w.confirmations;
  }

  // ---- editing a document --------------------------------------------------------------------

  function Edited(w: World, kind: Kind, d: Digest): World { w.(docs := w.docs[kind := d]) }

  /** Every document that is there is recorded as it is. */
  function Reconciled(w: World): World { w.(recorded := w.recorded + w.docs) }

  /** The store knows the documents as they are. */
  predicate InStep(w: World) { forall k :: k in w.docs ==> k in w.recorded && w.recorded[k] == w.docs[k] }

  /** The stage a document belongs to: the first one its digest matters for. */
  function StageOf(kind: Kind): nat {
    match kind case TaskDoc => 0 case SpecDoc => 1 case PlanDoc => 2 case TodoDoc => 3 case ReportDoc => 7
  }

  predicate FalseFrom(r: Readiness, stage: nat)
  {
    forall k :: stage <= k < 9 ==> !r.Stages()[k]
  }

  lemma FalseOnward(inputs: Inputs, stage: nat)
    requires stage < 9 && !Resolve(inputs).Stages()[stage]
    ensures FalseFrom(Resolve(inputs), stage)
  {
    ChainIsOrdered(inputs);
  }

  lemma KindsAreAll(kind: Kind)
    ensures kind in KINDS
  {
    assert KINDS[0] == TaskDoc && KINDS[1] == SpecDoc && KINDS[2] == PlanDoc && KINDS[3] == TodoDoc && KINDS[4] == ReportDoc;
    match kind case TaskDoc => case SpecDoc => case PlanDoc => case TodoDoc => case ReportDoc =>
  }

  /** Changing a document to anything but what is recorded fails its stage and all later ones. */
  lemma EditInvalidates(w: World, kind: Kind, d: Digest)
    requires kind !in w.recorded || w.recorded[kind] != d
    ensures FalseFrom(Compute(Edited(w, kind, d)), StageOf(kind))
  {
    var inputs := InputsOf(Edited(w, kind, d));
    KindsAreAll(kind);
    assert inputs.Doc(kind).Some? && !inputs.Doc(kind).value.Current();
    StaleFails(inputs, kind);
    FalseOnward(inputs, StageOf(kind));
  }

  lemma StaleFails(inputs: Inputs, kind: Kind)
    requires inputs.Doc(kind).Some? && !inputs.Doc(kind).value.Current()
    ensures !Resolve(inputs).Stages()[StageOf(kind)]
  {
    var task, spec, plan, todo := inputs.Doc(TaskDoc), inputs.Doc(SpecDoc), inputs.Doc(PlanDoc), inputs.Doc(TodoDoc);
    match kind
    case TaskDoc => ConfirmedExactly([task], inputs.Groups(TaskGate)); assert [task][0] == task;
    case SpecDoc => ConfirmedExactly([task, spec], inputs.Groups(SpecGate)); assert [task, spec][1] == spec;
    case PlanDoc => ConfirmedExactly([plan], inputs.Groups(PlanGate)); assert [plan][0] == plan;
    case TodoDoc => assert [task, spec, plan, todo][3] == todo;
    case ReportDoc =>
  }

  /** Nothing the gate or the evidence of the document's stage holds names the digest. */
  predicate Unnamed(w: World, kind: Kind, d: Digest) {
    var inputs := InputsOf(w);
    match kind
    case TaskDoc => forall g :: g in inputs.Groups(TaskGate) ==> d !in g
    case SpecDoc => forall g :: g in inputs.Groups(SpecGate) ==> d !in g
    case PlanDoc => forall g :: g in inputs.Groups(PlanGate) ==> d !in g
    case TodoDoc => inputs.implementation.None? || d !in inputs.implementation.value.documents
    case ReportDoc => inputs.report.None? || inputs.report.value.document != d
  }

  /** After reconciling, the stage that stays failed; a todo only loses what was made from it. */
  function StageAfter(kind: Kind): nat { if kind == TodoDoc then 4 else StageOf(kind) }

  /** Recording the edited document does not bring the stage back, nor any later one, when nothing
      names the new digest. */
  lemma ReconcilingDoesNotRevive(w: World, kind: Kind, d: Digest)
    requires Unnamed(w, kind, d)
    ensures FalseFrom(Compute(Reconciled(Edited(w, kind, d))), StageAfter(kind))
  {
    var v := Reconciled(Edited(w, kind, d));
    var inputs := InputsOf(v);
    KindsAreAll(kind);
    assert inputs.Doc(kind) == Some(Fact(d, d));
    UnnamedFails(inputs, kind, d);
    FalseOnward(inputs, StageAfter(kind));
  }

  lemma UnnamedFails(inputs: Inputs, kind: Kind, d: Digest)
    requires inputs.Doc(kind) == Some(Fact(d, d))
    requires match kind
      case TaskDoc => forall g :: g in inputs.Groups(TaskGate) ==> d !in g
      case SpecDoc => forall g :: g in inputs.Groups(SpecGate) ==> d !in g
      case PlanDoc => forall g :: g in inputs.Groups(PlanGate) ==> d !in g
      case TodoDoc => inputs.implementation.None? || d !in inputs.implementation.value.documents
      case ReportDoc => inputs.report.None? || inputs.report.value.document != d
    ensures !Resolve(inputs).Stages()[StageAfter(kind)]
  {
    var task, spec, plan, todo := inputs.Doc(TaskDoc), inputs.Doc(SpecDoc), inputs.Doc(PlanDoc), inputs.Doc(TodoDoc);
    match kind
    case TaskDoc => ConfirmedExactly([task], inputs.Groups(TaskGate)); assert [task][0] == task;
    case SpecDoc => ConfirmedExactly([task, spec], inputs.Groups(SpecGate)); assert [task, spec][1] == spec;
    case PlanDoc => ConfirmedExactly([plan], inputs.Groups(PlanGate)); assert [plan][0] == plan;
    case TodoDoc =>
      var facts := [task, spec, plan, todo];
      assert facts[3] == todo && todo in facts;
      if SourceDigests(inputs).Some? { assert d in SourceDigests(inputs).value; }
    case ReportDoc =>
  }

  /** Putting a document back and reconciling again restores the readiness: nothing else is kept. */
  lemma UndoRestores(w: World, kind: Kind, d: Digest)
    requires InStep(w) && kind in w.docs
    ensures Compute(Reconciled(Edited(Reconciled(Edited(w, kind, d)), kind, w.docs[kind]))) == Compute(w)
  {
    hide Compute, Facts;
    var v := Reconciled(Edited(Reconciled(Edited(w, kind, d)), kind, w.docs[kind]));
    assert v.docs == w.docs;
    SameFacts(v, w);
    assert v == w.(recorded := v.recorded);
  }

  /** Only the facts about the documents matter, not what else was recorded. */
  lemma SameFacts(v: World, w: World)
    requires v.docs == w.docs && v == w.(recorded := v.recorded)
    requires forall k :: k in w.docs ==> k in v.recorded && k in w.recorded && v.recorded[k] == w.recorded[k]
    requires forall k :: k !in w.docs ==> (k in v.recorded <==> k in w.recorded)
    requires forall k :: k !in w.docs && k in w.recorded ==> v.recorded[k] == w.recorded[k]
    ensures Compute(v) == Compute(w)
  {
    hide Resolve;
    assert Facts(v) == Facts(w);
  }

  /** Another workspace revision than the implementation was made in fails that stage and all later. */
  lemma RevisionInvalidates(w: World, now: Option<string>)
    requires var f := WorkspaceFactOf(w.implementation); f.None? || now != Some(f.value.revision)
    ensures FalseFrom(Compute(w.(revision := now)), 4)
  {
    FalseOnward(InputsOf(w.(revision := now)), 4);
  }

  // ---- writing the report -----------------------------------------------------------------

  /** What `_run_report` hands to the guard: the digests of the four documents and of the evidence. */
  predicate ReportInputs(w: World) {
    && TaskDoc in w.docs && SpecDoc in w.docs && PlanDoc in w.docs && TodoDoc in w.docs
    && w.verification != [] && w.review != []
  }

  function ReportSources(w: World): seq<Digest>
    requires ReportInputs(w)
  {
    [w.docs[TaskDoc], w.docs[SpecDoc], w.docs[PlanDoc], w.docs[TodoDoc], w.verification[|w.verification| - 1].digest,
     w.review[|w.review| - 1].digest, w.review[|w.review| - 1].digest]
  }

  /** The three writes of `write_report`, in order: the document, its reference, the evidence. */
  function WithDocument(w: World, d: Digest): World { Edited(w, ReportDoc, d) }
  function WithReference(w: World, d: Digest): World { w.(recorded := w.recorded[ReportDoc := d]) }
  function WithEvidence(w: World, e: Evidence<ReportPayload>): World { w.(report := w.report + [e]) }

  function Reported(w: World, d: Digest, evidence: Digest): World
    requires ReportInputs(w)
  {
    WithEvidence(WithReference(WithDocument(w, d), d), Evidence(evidence, Some(ReportPayload(d, ReportSources(w)))))
  }

  /** With the inputs unchanged a written report is current at the next computation, and what was
      fresh before still is. */
  lemma ReportBecomesCurrent(w: World, d: Digest, evidence: Digest)
    requires Compute(w).reviewFresh && d != ""
    ensures ReportInputs(w)
    ensures var r := Compute(Reported(w, d, evidence)); r.reviewFresh && r.reportCurrent
  {
    hide Resolve, SourceDigests, InputsOf, ReportSources;
    ReviewNeedsInputs(w);
    EvidenceDigests(w);
    var before, after := InputsOf(w), InputsOf(Reported(w, d, evidence));
    SameSources(w, d, evidence);
    SourcesAreTheFour(w);
    SevenDigests(ReportSources(w));
    ReportIsThere(w, d, evidence);
    OnlyReportDiffers(before, after);
  }

  /** Whatever others did since: a report on record is current exactly when the document read now is
      the one it names, recorded as such, and it was made from the very digests read now. */
  lemma ReportCurrentExactly(w: World, d: Digest, sources: seq<Digest>)
    requires ReportFactOf(w.report) == Some(ReportFact(d, Digests(sources)))
    requires Compute(w).reviewFresh
    ensures ReportInputs(w)
    ensures Compute(w).reportCurrent <==>
      && d != "" && ReportDoc in w.docs && w.docs[ReportDoc] == d && ReportDoc in w.recorded && w.recorded[ReportDoc] == d
      && Digests(sources) == Digests(ReportSources(w))
  {
    hide SourceDigests, ReportSources, ConfirmedGroup, WorkspaceFactOf, ReviewFactOf;
    KindsAreAll(ReportDoc);
    ReviewNeedsInputs(w);
    EvidenceDigests(w);
    SourcesAreTheFour(w);
    SevenDigests(ReportSources(w));
  }

  lemma EvidenceDigests(w: World)
    requires ReportInputs(w) && InputsOf(w).verification.Some? && InputsOf(w).review.Some?
    ensures |ReportSources(w)| == 7
    ensures ReportSources(w)[4] == InputsOf(w).verification.value.evidence
    ensures ReportSources(w)[5] == InputsOf(w).review.value.requirement.evidence
    ensures ReportSources(w)[6] == InputsOf(w).review.value.code.evidence
  {
  }

  /** The stages before the report do not look at it. */
  lemma OnlyReportDiffers(before: Inputs, after: Inputs)
    requires after == before.(documents := after.documents, report := after.report)
    requires forall k :: k in {TaskDoc, SpecDoc, PlanDoc, TodoDoc} ==> after.Doc(k) == before.Doc(k)
    ensures SourceDigests(after) == SourceDigests(before)
    ensures Resolve(after).reviewFresh == Resolve(before).reviewFresh
    ensures Resolve(after).reportCurrent == (Resolve(before).reviewFresh && ReportIsCurrent(after))
  {
    hide ConfirmedGroup, ReportIsCurrent;
  }

  lemma ReportIsThere(w: World, d: Digest, evidence: Digest)
    requires ReportInputs(w)
    ensures InputsOf(Reported(w, d, evidence)).Doc(ReportDoc) == Some(Fact(d, d))
    ensures InputsOf(Reported(w, d, evidence)).report == Some(ReportFact(d, Digests(ReportSources(w))))
  {
    KindsAreAll(ReportDoc);
  }

  lemma SourcesAreTheFour(w: World)
    requires ReportInputs(w) && SourceDigests(InputsOf(w)).Some?
    ensures SourceDigests(InputsOf(w)).value ==
      {ReportSources(w)[0], ReportSources(w)[1], ReportSources(w)[2], ReportSources(w)[3]}
  {
    var inputs := InputsOf(w);
    FourDigests([inputs.Doc(TaskDoc), inputs.Doc(SpecDoc), inputs.Doc(PlanDoc), inputs.Doc(TodoDoc)]);
  }

  lemma ReviewNeedsInputs(w: World)
    requires Compute(w).reviewFresh
    ensures ReportInputs(w)
    ensures SourceDigests(InputsOf(w)).Some? && InputsOf(w).verification.Some? && InputsOf(w).review.Some?
  {
    var inputs := InputsOf(w);
    var four := [inputs.Doc(TaskDoc), inputs.Doc(SpecDoc), inputs.Doc(PlanDoc), inputs.Doc(TodoDoc)];
    assert AllCurrent(four);
    assert four[0].value.Current() && four[1].value.Current() && four[2].value.Current() && four[3].value.Current();
  }

  lemma FourDigests(four: seq<Option<Fact>>)
    requires |four| == 4 && AllCurrent(four)
    ensures CurrentDigests(four) ==
      {four[0].value.current, four[1].value.current, four[2].value.current, four[3].value.current}
  {
    assert four == [four[0], four[1], four[2], four[3]];
    forall i | 0 <= i < 4 ensures four[i].value.current in CurrentDigests(four) { assert four[i] in four; }
  }

  lemma SevenDigests(s: seq<Digest>)
    requires |s| == 7
    ensures Digests(s) == {s[0], s[1], s[2], s[3]} + {s[4], s[5], s[6]}
  {
    assert s == [s[0], s[1], s[2], s[3], s[4], s[5], s[6]];
    forall i | 0 <= i < 7 ensures s[i] in Digests(s) { }
  }

  lemma SameSources(w: World, d: Digest, evidence: Digest)
    requires ReportInputs(w)
    ensures var before, after := InputsOf(w), InputsOf(Reported(w, d, evidence));
      && (forall k :: k in {TaskDoc, SpecDoc, PlanDoc, TodoDoc} ==> after.Doc(k) == before.Doc(k))
      && after == before.(documents := after.documents, report := after.report)
  {
  }

  /** A report write that stops half way leaves the report stale unless older evidence names the
      very same document. */
  lemma HalfWrittenReportIsStale(w: World, d: Digest)
    requires var f := ReportFactOf(w.report); f.None? || f.value.document != d
    ensures !Compute(WithDocument(w, d)).reportCurrent
    ensures !Compute(WithReference(WithDocument(w, d), d)).reportCurrent
  {
    KindsAreAll(ReportDoc);
  }
}
