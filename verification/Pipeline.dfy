/** The activity pipeline of a work item and the guard that completes it. Others may change the
    workspace and the store at any point where the engine waits. */
module Pipeline {
  import opened Wrappers
  import opened Readiness
  import opened WorkItemEngine

  const MAX_PIPELINE_STEPS := 8

  datatype Outcome = Waiting | RetryableFailed | TurnBlocked | TurnCompleted | Failed

  /** The store only moves forward: evidence is appended, and an item that changes gets a larger
      revision. */
  predicate Later(a: World, b: World) {
    && a.implementation <= b.implementation && a.verification <= b.verification
    && a.review <= b.review && a.report <= b.report
    && (b.item.Some? ==> a.item.Some? && (b.item == a.item || a.item.value.revision < b.item.value.revision))
  }

  lemma LaterIsTransitive(a: World, b: World, c: World)
    requires Later(a, b) && Later(b, c)
    ensures Later(a, c)
  {
  }

  /** Between the two the item of the later state did not change. */
  lemma SameRevisionSameItem(a: World, b: World, c: World)
    requires Later(a, b) && Later(b, c) && c.item.Some?
    requires a.item.Some? && a.item.value.revision == c.item.value.revision
    ensures a.item == b.item == c.item
  {
  }

  /** These states were passed through one after the other, between `from` and `to`. */
  ghost predicate Passed(from: World, states: seq<World>, to: World) {
    && Later(from, to)
    && (forall i :: 0 <= i < |states| ==> Later(from, states[i]) && Later(states[i], to))
    && (forall i, j :: 0 <= i < j < |states| ==> Later(states[i], states[j]))
  }

  lemma PassedOn(from: World, states: seq<World>, now: World, next: World)
    requires Passed(from, states, now) && Later(now, next)
    ensures Passed(from, states, next) && Passed(from, states + [next], next)
  {
    hide Later;
    LaterIsReflexive(next);
    forall i | 0 <= i < |states| ensures Later(states[i], next) { LaterIsTransitive(states[i], now, next); }
    LaterIsTransitive(from, now, next);
  }

  lemma NothingPassed(w: World)
    ensures Passed(w, [], w)
  {
  }

  /** Nobody did anything while these states were passed through. */
  ghost predicate Still(states: seq<World>, w: World) { forall i :: 0 <= i < |states| ==> states[i] == w }

  lemma NothingStill(w: World)
    ensures Still([], w)
  {
  }

  /** A document that was inspected is recorded as it was then, unless it was before. */
  ghost predicate RecordedAs(refs: map<Kind, Digest>, docs: map<Kind, Digest>, after: map<Kind, Digest>, kind: Kind) {
    kind in docs ==>
      (kind in refs && refs[kind] == docs[kind]) || (kind in after && after[kind] == docs[kind])
  }

  // ---- the writes of a report ------------------------------------------------------------------

  /** The state after write number `k` of a report, made in the state `w`. */
  function AfterWrite(k: nat, w: World, d: Digest, row: Evidence<ReportPayload>): World {
    if k == 0 then WithDocument(w, d) else if k == 1 then WithReference(w, d) else WithEvidence(w, row)
  }

  /** The document, its reference and the evidence were written in this order, as far as there are
      states: write number `k` was made in the state `states[k]`. */
  ghost predicate Wrote(from: World, states: seq<World>, to: World, d: Digest, row: Evidence<ReportPayload>) {
    && |states| <= 3
    && (if states == [] then Later(from, to)
        else Later(from, states[0]) && Later(AfterWrite(|states| - 1, states[|states| - 1], d, row), to))
    && (forall k :: 1 <= k < |states| ==> Later(AfterWrite(k - 1, states[k - 1], d, row), states[k]))
  }

  lemma WritesMoveOn(w: World, d: Digest, row: Evidence<ReportPayload>)
    ensures forall k: nat :: Later(w, AfterWrite(k, w, d, row))
  {
  }

  lemma WroteNothing(from: World, to: World, draft: Option<Digest>, evidence: Digest, sources: seq<Digest>)
    requires Later(from, to)
    ensures draft.Some? ==> Wrote(from, [], to, draft.value, Evidence(evidence, Some(ReportPayload(draft.value, sources))))
  {
  }

  lemma WroteStill(from: World, states: seq<World>, now: World, next: World, d: Digest, row: Evidence<ReportPayload>)
    requires Wrote(from, states, now, d, row) && Later(now, next)
    ensures Wrote(from, states, next, d, row)
  {
    hide Later, AfterWrite;
    if states == [] {
      LaterIsTransitive(from, now, next);
    } else {
      LaterIsTransitive(AfterWrite(|states| - 1, states[|states| - 1], d, row), now, next);
    }
  }

  lemma WroteOneMore(from: World, states: seq<World>, now: World, d: Digest, row: Evidence<ReportPayload>)
    requires Wrote(from, states, now, d, row) && |states| < 3
    ensures Wrote(from, states + [now], AfterWrite(|states|, now, d, row), d, row)
  {
    hide Later, AfterWrite;
    LaterIsReflexive(AfterWrite(|states|, now, d, row));
  }

  const SOURCE_KINDS: seq<Kind> := [TaskDoc, SpecDoc, PlanDoc, TodoDoc]

  /** Four documents, the verification and the review were there, each in the state it was read in. */
  ghost predicate ReportReadable(s: seq<World>) {
    && |s| == 6 && s[4].verification != [] && s[5].review != []
    && forall k :: 0 <= k < 4 ==> SOURCE_KINDS[k] in s[k].docs
  }

  ghost function SourcesRead(s: seq<World>): seq<Digest>
    requires ReportReadable(s)
  {
    [s[0].docs[SOURCE_KINDS[0]], s[1].docs[SOURCE_KINDS[1]], s[2].docs[SOURCE_KINDS[2]], s[3].docs[SOURCE_KINDS[3]],
     s[4].verification[|s[4].verification| - 1].digest, s[5].review[|s[5].review| - 1].digest,
     s[5].review[|s[5].review| - 1].digest]
  }

  lemma StillSources(s: seq<World>, w: World)
    requires ReportReadable(s) && Still(s, w)
    ensures ReportInputs(w) && SourcesRead(s) == ReportSources(w)
  {
    assert SOURCE_KINDS[0] in s[0].docs && SOURCE_KINDS[1] in s[1].docs && SOURCE_KINDS[2] in s[2].docs;
    assert SOURCE_KINDS[3] in s[3].docs;
  }

  class Engine {
    var world: World
    /** The environment: when set, nobody else acts and no write fails. */
    const calm: bool

    constructor (world: World, calm: bool)
      ensures this.world == world && this.calm == calm
    {
      this.world, this.calm := world, calm;
    }

    /** Whatever others do meanwhile. */
    method Interfere()
      modifies this
      ensures Later(old(world), world) && (calm ==> world == old(world))
    {
      var w: World := *;
      if !calm && Later(world, w) { world := w; }
    }

    /** Others act while the engine waits; the state it goes on in is noted. */
    method Await(ghost from: World, ghost states: seq<World>) returns (ghost noted: seq<World>)
      requires Passed(from, states, world)
      modifies this
      ensures noted == states + [world] && Passed(from, noted, world) && Later(old(world), world)
      ensures calm ==> world == old(world) && (Still(states, world) ==> Still(noted, world))
    {
      hide Later, Passed;
      ghost var before := world;
      Interfere();
      PassedOn(from, states, before, world);
      noted := states + [world];
    }

    /** `_reconcile_documents`: one pass over the kinds. Document number `k` is inspected in `seen[k]`
        and recorded by `done[k]`, unless the references read at first have it already. */
    method ReconcileDocuments() returns (ghost first: World, ghost seen: seq<World>, ghost done: seq<World>)
      modifies this
      ensures |seen| == |done| == |KINDS| && Later(old(world), first) && Passed(first, seen, world) && Passed(first, done, world)
      ensures forall k :: 0 <= k < |KINDS| ==>
        Later(seen[k], done[k]) && RecordedAs(first.recorded, seen[k].docs, done[k].recorded, KINDS[k])
      ensures calm ==> world == Reconciled(old(world))
    {
      hide Later, Passed, RecordedAs, Reconciled;
      ghost var start := world;
      Interfere();
      var refs := world.recorded;
      first, seen, done := world, [], [];
      NothingPassed(world);
      NothingRecorded(start);
      for k := 0 to |KINDS|
        invariant |seen| == |done| == k && Passed(first, seen, world) && Passed(first, done, world)
        invariant forall n :: 0 <= n < k ==>
          Later(seen[n], done[n]) && RecordedAs(refs, seen[n].docs, done[n].recorded, KINDS[n])
        invariant calm ==> first == start && world == RecordedUpTo(start, k)
      {
        ghost var before := world;
        seen := Await(first, seen);
        PassedOn(first, done, before, world);
        ghost var inspected := world;
        var kind := KINDS[k];
        var found, digest := kind in world.docs, if kind in world.docs then world.docs[kind] else "";
        Interfere();
        PassedOn(first, seen, inspected, world);
        PassedOn(first, done, inspected, world);
        before := world;
        if found && (kind !in refs || refs[kind] != digest) {
          world := world.(recorded := world.recorded[kind := digest]);
        }
        RecordingMovesOn(before, world);
        LaterIsTransitive(inspected, before, world);
        PassedOn(first, seen, before, world);
        PassedOn(first, done, before, world);
        InspectedIsRecorded(refs, inspected.docs, world.recorded, kind);
        if calm { OneMoreRecorded(start, k); }
        done := done + [world];
      }
      AllRecorded(start);
    }

    /** One of the three writes; it may fail, and others may act before it. */
    method MakeWrite(k: nat, d: Digest, row: Evidence<ReportPayload>, ghost asked: World, ghost states: seq<World>)
      returns (ok: bool, ghost made: seq<World>)
      requires k == |states| && k < 3 && Wrote(asked, states, world, d, row) && Later(asked, world)
      modifies this
      ensures Wrote(asked, made, world, d, row) && Later(asked, world)
      ensures if ok then |made| == k + 1 else made == states
      ensures calm ==> ok && world == AfterWrite(k, old(world), d, row)
    {
      hide Later, Wrote, AfterWrite;
      ghost var before := world;
      Interfere();
      LaterIsTransitive(asked, before, world);
      WroteStill(asked, states, before, world, d, row);
      var done: bool := *;
      if !done && !calm { return false, states; }
      before := world;
      WritesMoveOn(world, d, row);
      world := AfterWrite(k, world, d, row);
      LaterIsTransitive(asked, before, world);
      WroteOneMore(asked, states, before, d, row);
      return true, states + [before];
    }

    /** `write_report`: document, reference, evidence; any of the writes may fail, and others may act
        before each of them. The revision was read in `asked`. */
    method WriteReport(sources: seq<Digest>, draft: Option<Digest>, evidence: Digest)
      returns (ok: bool, ghost asked: World, ghost states: seq<World>)
      requires draft.Some? ==> draft.value != ""
      modifies this
      ensures Later(old(world), asked) && Later(asked, world) && (ok <==> |states| == 3)
      ensures states == [] || (draft.Some? && asked.revision.Some? && asked.revision.value != "")
      ensures draft.Some? ==> Wrote(asked, states, world, draft.value, Evidence(evidence, Some(ReportPayload(draft.value, sources))))
      ensures calm ==> asked == old(world)
      ensures calm ==> (ok <==> draft.Some? && old(world).revision.Some? && old(world).revision.value != "")
      ensures calm && !ok ==> world == old(world)
      ensures calm && ok ==>
        world == WithEvidence(WithReference(WithDocument(old(world), draft.value), draft.value),
                              Evidence(evidence, Some(ReportPayload(draft.value, sources))))
    {
      hide Later, Wrote;
      Interfere();
      asked, states := world, [];
      LaterIsReflexive(world);
      var revision := world.revision;
      Interfere();
      WroteNothing(asked, world, draft, evidence, sources);
      if revision.None? || revision.value == "" { return false, asked, states; }
      if draft.None? { return false, asked, states; }
      var existing := if ReportDoc in world.docs then Some(world.docs[ReportDoc]) else None;
      ghost var inspected := world;
      Interfere();
      LaterIsTransitive(asked, inspected, world);
      WroteNothing(asked, world, draft, evidence, sources);
      if existing != (if ReportDoc in world.docs then Some(world.docs[ReportDoc]) else None) { return false, asked, states; }
      var row := Evidence(evidence, Some(ReportPayload(draft.value, sources)));
      var made;
      made, states := MakeWrite(0, draft.value, row, asked, states);
      if !made { return false, asked, states; }
      made, states := MakeWrite(1, draft.value, row, asked, states);
      if !made { return false, asked, states; }
      made, states := MakeWrite(2, draft.value, row, asked, states);
      return made, asked, states;
    }

    /** The documents the report is made from, one after the other; the first that is missing ends it. */
    method FourDocuments(ghost from: World) returns (digests: seq<Digest>, ghost inputs: seq<World>)
      requires Later(from, world)
      modifies this
      ensures |digests| <= 4 && Passed(from, inputs, world) && Later(old(world), world)
      ensures |digests| == 4 ==> |inputs| == 4 && forall k :: 0 <= k < 4 ==>
        SOURCE_KINDS[k] in inputs[k].docs && digests[k] == inputs[k].docs[SOURCE_KINDS[k]]
      ensures calm ==> world == old(world) && Still(inputs, world)
      ensures calm && (forall k :: 0 <= k < 4 ==> SOURCE_KINDS[k] in old(world).docs) ==> |digests| == 4
    {
      hide Later, Passed;
      ghost var start := world;
      digests, inputs := [], [];
      NothingPassed(world);
      StartEarlier(from, world);
      LaterIsReflexive(world);
      for k := 0 to 4
        invariant |digests| == |inputs| == k && Passed(from, inputs, world) && Later(start, world)
        invariant forall n :: 0 <= n < k ==>
          SOURCE_KINDS[n] in inputs[n].docs && digests[n] == inputs[n].docs[SOURCE_KINDS[n]]
        invariant calm ==> world == start && Still(inputs, world)
      {
        ghost var before := world;
        inputs := Await(from, inputs);
        LaterIsTransitive(start, before, world);
        if SOURCE_KINDS[k] !in world.docs { return digests, inputs; }
        digests := digests + [world.docs[SOURCE_KINDS[k]]];
      }
    }

    /** The digests a report is made from; none of them when something is missing. */
    method ReadSources() returns (sources: seq<Digest>, missing: Outcome, ghost inputs: seq<World>)
      modifies this
      ensures Passed(old(world), inputs, world) && missing != TurnCompleted
      ensures sources != [] ==> ReportReadable(inputs) && sources == SourcesRead(inputs)
      ensures calm ==> world == old(world) && Still(inputs, world)
      ensures calm && ReportInputs(old(world)) ==> sources != []
      ensures Later(old(world), world)
    {
      hide Later, Passed;
      ghost var start := world;
      var digests;
      LaterIsReflexive(world);
      digests, inputs := FourDocuments(start);
      if |digests| < 4 { return [], Failed, inputs; }
      ghost var before := world;
      inputs := Await(start, inputs);
      LaterIsTransitive(start, before, world);
      var verification := world.verification;
      before := world;
      inputs := Await(start, inputs);
      LaterIsTransitive(start, before, world);
      var review := world.review;
      if verification == [] || review == [] { return [], Waiting, inputs; }
      var reviewed := review[|review| - 1].digest;
      sources := digests + [verification[|verification| - 1].digest, reviewed, reviewed];
      return sources, Waiting, inputs;
    }

    /** `_run_report`: none means the pipeline goes on. Then the evidence on record names digests that
        were read one after the other in `inputs`, before the three writes. */
    method RunReport(draft: Option<Digest>, evidence: Digest)
      returns (outcome: Option<Outcome>, ghost inputs: seq<World>, ghost asked: World, ghost states: seq<World>)
      requires draft.Some? ==> draft.value != ""
      modifies this
      ensures outcome != Some(TurnCompleted) && Later(old(world), world)
      ensures outcome.None? ==>
        && draft.Some? && ReportReadable(inputs) && Passed(old(world), inputs, asked) && |states| == 3
        && Wrote(asked, states, world, draft.value, Evidence(evidence, Some(ReportPayload(draft.value, SourcesRead(inputs)))))
      ensures calm && outcome.None? ==>
        && ReportInputs(old(world)) && world == Reported(old(world), draft.value, evidence)
        && (Compute(old(world)).reviewFresh ==> Compute(world).reportCurrent)
      ensures calm && draft.Some? && Compute(old(world)).reviewFresh ==> outcome.None?
    {
      hide Compute, Later, Passed, Wrote, ReportReadable, SourcesRead, ReportInputs, ReportSources;
      ghost var start := world;
      if Compute(world).reviewFresh { ReviewNeeds(world); }
      asked, states := world, [];
      var sources, missing;
      sources, missing, inputs := ReadSources();
      if sources == [] { return Some(missing), inputs, asked, states; }
      ghost var before := world;
      var ok;
      ok, asked, states := WriteReport(sources, draft, evidence);
      PassedOn(start, inputs, before, asked);
      LaterIsTransitive(start, before, asked);
      LaterIsTransitive(start, asked, world);
      if calm { StillSources(inputs, start); }
      if !ok { return Some(RetryableFailed), inputs, asked, states; }
      if Compute(start).reviewFresh { ReportBecomesCurrent(start, draft.value, evidence); }
      return None, inputs, asked, states;
    }

    /** `_compute_readiness`: read number `k` is made in the state `s[k]`, and others may act between
        any two of them. */
    method ComputeReadiness() returns (r: Readiness, ghost s: seq<World>)
      modifies this
      ensures |s| == READS && Passed(old(world), s, world) && r == Compute(Patchwork(s))
      ensures calm ==> world == old(world) && Still(s, world)
    {
      hide Later, Passed, Compute, Patchwork, DocumentRead, GateRead, Still;
      ghost var start := world;
      NothingPassed(world);
      NothingStill(world);
      s := Await(start, []);
      var recorded := world.recorded;
      var docs, groups;
      docs, s := InspectDocuments(start, s);
      ghost var inspected := s;
      groups, s := LoadConfirmations(start, s);
      ghost var confirmed := s;
      var rest;
      rest, s := LoadEvidence(start, s);
      SameDocs(s, inspected);
      SameGroups(s, confirmed);
      PatchedFrom(s, docs, groups, recorded, rest);
      r := Compute(rest.(docs := docs, recorded := recorded, confirmations := groups));
    }

    /** The revision, the evidence and the effects; only these of the result are meant. */
    method LoadEvidence(ghost from: World, ghost states: seq<World>) returns (rest: World, ghost s: seq<World>)
      requires |states| == 9 && Passed(from, states, world)
      modifies this
      ensures |s| == READS && s[..9] == states && Passed(from, s, world)
      ensures rest.revision == s[9].revision && rest.implementation == s[10].implementation
      ensures rest.verification == s[11].verification && rest.review == s[12].review
      ensures rest.report == s[13].report && rest.effects == s[14].effects
      ensures calm ==> world == old(world) && (Still(states, world) ==> Still(s, world))
    {
      hide Later, Passed, Still;
      s := Await(from, states);
      rest := world;
      s := Await(from, s);
      rest := rest.(implementation := world.implementation);
      s := Await(from, s);
      rest := rest.(verification := world.verification);
      s := Await(from, s);
      rest := rest.(review := world.review);
      s := Await(from, s);
      rest := rest.(report := world.report);
      s := Await(from, s);
      rest := rest.(effects := world.effects);
    }

    method InspectDocuments(ghost from: World, ghost states: seq<World>) returns (docs: map<Kind, Digest>, ghost s: seq<World>)
      requires |states| == 1 && Passed(from, states, world)
      modifies this
      ensures |s| == 6 && s[..1] == states && Passed(from, s, world)
      ensures forall kind :: kind in docs <==> kind in KINDS && kind in s[DocumentRead(kind)].docs
      ensures forall kind :: kind in docs ==> docs[kind] == s[DocumentRead(kind)].docs[kind]
      ensures calm ==> world == old(world) && (Still(states, world) ==> Still(s, world))
    {
      hide Later, Passed;
      ghost var start := world;
      docs, s := map[], states;
      for k := 0 to |KINDS|
        invariant |s| == k + 1 && s[..1] == states && Passed(from, s, world)
        invariant forall kind :: kind in docs ==> DocumentRead(kind) <= k
        invariant forall kind :: DocumentRead(kind) <= k ==> (kind in docs <==> kind in s[DocumentRead(kind)].docs)
        invariant forall kind :: kind in docs ==> docs[kind] == s[DocumentRead(kind)].docs[kind]
        invariant calm ==> world == start && (Still(states, world) ==> Still(s, world))
      {
        s := Await(from, s);
        var kind := KINDS[k];
        ReadInOrder(k);
        if kind in world.docs { docs := docs[kind := world.docs[kind]]; }
      }
      forall kind: Kind ensures kind in KINDS { KindsAreAll(kind); }
    }

    method LoadConfirmations(ghost from: World, ghost states: seq<World>)
      returns (groups: map<Gate, seq<set<Digest>>>, ghost s: seq<World>)
      requires |states| == 6 && Passed(from, states, world)
      modifies this
      ensures |s| == 9 && s[..6] == states && Passed(from, s, world)
      ensures forall g :: g in groups <==> g in GATES && g in s[GateRead(g)].confirmations
      ensures forall g :: g in groups ==> groups[g] == s[GateRead(g)].confirmations[g]
      ensures calm ==> world == old(world) && (Still(states, world) ==> Still(s, world))
    {
      hide Later, Passed;
      ghost var start := world;
      groups, s := map[], states;
      for k := 0 to |GATES|
        invariant |s| == k + 6 && s[..6] == states && Passed(from, s, world)
        invariant forall g :: g in groups ==> GateRead(g) <= k + 5
        invariant forall g :: GateRead(g) <= k + 5 ==> (g in groups <==> g in s[GateRead(g)].confirmations)
        invariant forall g :: g in groups ==> groups[g] == s[GateRead(g)].confirmations[g]
        invariant calm ==> world == start && (Still(states, world) ==> Still(s, world))
      {
        s := Await(from, s);
        var gate := GATES[k];
        GatesInOrder(k);
        if gate in world.confirmations { groups := groups[gate := world.confirmations[gate]]; }
      }
      forall g: Gate ensures g in GATES { GatesAreAll(g); }
    }

    /** An implement, verify or review activity: it may do anything but complete the item. */
    method RunActivity() returns (outcome: Option<Outcome>)
      modifies this
      ensures outcome != Some(TurnCompleted) && Later(old(world), world)
    {
      Interfere();
      outcome := *;
      if outcome == Some(TurnCompleted) { outcome := None; }
    }

    /** A document gate that is still open: it may do anything but complete the item. */
    method RunGate() returns (outcome: Outcome)
      modifies this
      ensures outcome != TurnCompleted && Later(old(world), world)
    {
      Interfere();
      outcome := *;
      if outcome == TurnCompleted { outcome := Waiting; }
    }

    /** `complete`: the compare-and-set on the revision of the item the engine holds. */
    method Complete(current: Item) returns (ok: bool)
      modifies this
      ensures ok ==>
        && old(world).item.Some? && old(world).item.value.revision == current.revision
        && !old(world).item.value.status.Terminal()
        && world == old(world).(item := Some(Item(current.revision + 1, CompletedItem)))
      ensures !ok ==> world == old(world)
      ensures calm && old(world).item == Some(current) && !current.status.Terminal() ==> ok
    {
      if world.item.None? || world.item.value.status.Terminal() { return false; }
      if world.item.value.revision != current.revision { return false; }
      var written: bool := *;
      if !written && !calm { return false; }
      world := world.(item := Some(Item(current.revision + 1, CompletedItem)));
      return true;
    }

    /** `_run_pipeline`, for an item loaded in `loaded`. When it reports completion, all nine predicates
        held of what was read in the states `read`, and in each of these the item was the one that the
        compare-and-set then completed. */
    method RunPipeline(item: Item, ghost loaded: World, draft: Option<Digest>, evidence: Digest, ready: Readiness)
      returns (outcome: Outcome, ghost read: seq<World>, steps: nat)
      requires loaded.item == Some(item) && Later(loaded, world)
      requires draft.Some? ==> draft.value != ""
      modifies this
      ensures Later(old(world), world) && steps <= MAX_PIPELINE_STEPS
      ensures outcome == TurnCompleted ==>
        && |read| == READS && Passed(old(world), read, world) && Compute(Patchwork(read)).All()
        && OneItem(read) && !read[0].item.value.status.Terminal()
        && world.item == Some(Item(read[0].item.value.revision + 1, CompletedItem))
      ensures calm && outcome == TurnCompleted ==> Still(read, read[0]) && Compute(read[0]).All()
      ensures outcome == TurnCompleted ==> Approved(ready)
      ensures calm && old(world).item == Some(item) && !item.status.Terminal() && Approved(ready) ==>
        && (Compute(old(world)).complete ==> outcome == TurnCompleted && world == Finished(old(world), item))
        && (OnlyReportMissing(old(world)) && draft.Some? ==>
              && outcome == TurnCompleted && ReportInputs(old(world))
              && world == Finished(Reported(old(world), draft.value, evidence), item))
    {
      hide Compute, Later, OnlyReportMissing, OnTrack, Passed, OneItem, Patchwork, Wrote, ReportReadable, SourcesRead;
      ghost var start := world;
      TrackStart(start, draft, evidence);
      read, steps := [], 0;
      LaterIsReflexive(world);
      if !Approved(ready) {
        outcome := RunGate();
        return outcome, read, 0;
      }
      var current := item;
      ghost var held := loaded;
      while steps < MAX_PIPELINE_STEPS
        invariant steps <= MAX_PIPELINE_STEPS && Later(start, world)
        invariant held.item == Some(current) && Later(held, world)
        invariant calm ==> OnTrack(start, world, draft, evidence, steps)
        invariant calm && start.item == Some(item) ==> world.item == Some(current)
      {
        ghost var before := world;
        var r, s := ComputeReadiness();
        PassedLater(before, s, world);
        LaterIsTransitive(start, before, world);
        LaterIsTransitive(held, before, world);
        ghost var seen := world;
        if calm {
          UndisturbedReading(s, world);
          TrackNext(start, world, draft, evidence, steps);
        }
        var step: Option<Outcome>;
        if !r.implementationCurrent || !r.verificationFresh || !r.reviewFresh {
          step := RunActivity();
        } else if !r.reportCurrent {
          ghost var inputs, asked, states;
          step, inputs, asked, states := RunReport(draft, evidence);
        } else if r.complete && !current.status.Terminal() {
          AllNine(Patchwork(s));
          var ok := CompleteAfter(current, held, before, s);
          LaterIsTransitive(start, seen, world);
          if !ok { return RetryableFailed, s, steps; }
          StartSooner(start, before, s, world);
          return TurnCompleted, s, steps;
        } else {
          break;
        }
        LaterIsTransitive(start, seen, world);
        if step.Some? { return step.value, read, steps; }
        before := world;
        Interfere();
        LaterIsTransitive(start, before, world);
        if world.item.None? { return Failed, read, steps; }
        current, held := world.item.value, world;
        LaterIsReflexive(world);
        steps := steps + 1;
      }
      ghost var last := world;
      if calm { TrackNext(start, world, draft, evidence, steps); }
      Interfere();
      LaterIsTransitive(start, last, world);
      return if current.status == Blocked then TurnBlocked else Waiting, read, steps;
    }

    /** Completion after the readiness was computed from the states `s`, for the item that was loaded:
        when the compare-and-set succeeds, the item was the same in all of them. */
    method CompleteAfter(current: Item, ghost loaded: World, ghost from: World, ghost s: seq<World>) returns (ok: bool)
      requires loaded.item == Some(current) && !current.status.Terminal()
      requires Later(loaded, from) && Passed(from, s, world) && s != []
      modifies this
      ensures Later(old(world), world) && Passed(from, s, world)
      ensures ok ==> OneItem(s) && s[0].item.value == current
      ensures ok ==> world.item == Some(Item(current.revision + 1, CompletedItem))
      ensures calm && old(world).item == Some(current) ==> ok && world == Finished(old(world), current)
    {
      ghost var start := world;
      Interfere();
      ghost var before := world;
      PassedOn(from, s, start, before);
      ok := Complete(current);
      CompletingMovesOn(before, world, current, ok);
      LaterIsTransitive(start, before, world);
      PassedOn(from, s, before, world);
      if ok {
        forall k | 0 <= k < |s| ensures s[k].item == Some(current) {
          LaterIsTransitive(loaded, from, s[k]);
          SameRevisionSameItem(loaded, s[k], before);
        }
      }
    }
  }

  /** All three document gates are passed. */
  predicate Approved(r: Readiness) { r.taskConfirmed && r.specConfirmed && r.planConfirmed }

  /** The item was the same in all of these states. */
  ghost predicate OneItem(s: seq<World>) {
    s != [] && s[0].item.Some? && forall k :: 0 <= k < |s| ==> s[k].item == s[0].item
  }

  lemma CompletingMovesOn(before: World, after: World, current: Item, ok: bool)
    requires if ok then before.item.Some? && before.item.value.revision == current.revision
                        && after == before.(item := Some(Item(current.revision + 1, CompletedItem)))
             else after == before
    ensures Later(before, after)
  {
  }

  lemma PassedLater(from: World, s: seq<World>, to: World)
    requires Passed(from, s, to)
    ensures Later(from, to)
  {
  }

  lemma StartSooner(start: World, from: World, s: seq<World>, to: World)
    requires Later(start, from) && Passed(from, s, to)
    ensures Passed(start, s, to)
  {
    hide Later;
    LaterIsTransitive(start, from, to);
    forall k | 0 <= k < |s| ensures Later(start, s[k]) { LaterIsTransitive(start, from, s[k]); }
  }

  lemma StartEarlier(from: World, w: World)
    requires Later(from, w)
    ensures Passed(from, [], w)
  {
  }

  // ---- recording documents --------------------------------------------------------------------

  function DocsOf(docs: map<Kind, Digest>, kinds: seq<Kind>): map<Kind, Digest> {
    map kind | kind in kinds && kind in docs :: docs[kind]
  }

  lemma DocsGrow(docs: map<Kind, Digest>, kinds: seq<Kind>, kind: Kind)
    ensures DocsOf(docs, kinds + [kind]) ==
      if kind in docs then DocsOf(docs, kinds)[kind := docs[kind]] else DocsOf(docs, kinds)
  {
  }

  function RecordedUpTo(w: World, k: nat): World
    requires k <= |KINDS|
  {
    w.(recorded := w.recorded + DocsOf(w.docs, KINDS[..k]))
  }

  lemma NothingRecorded(w: World)
    ensures RecordedUpTo(w, 0) == w
  {
  }

  lemma OneMoreRecorded(w: World, k: nat)
    requires k < |KINDS|
    ensures var before, kind := RecordedUpTo(w, k), KINDS[k];
      RecordedUpTo(w, k + 1) ==
        if kind in w.docs && (kind !in w.recorded || w.recorded[kind] != w.docs[kind])
        then before.(recorded := before.recorded[kind := w.docs[kind]]) else before
  {
    KindsDiffer(k);
    DocsGrow(w.docs, KINDS[..k], KINDS[k]);
    assert KINDS[..k + 1] == KINDS[..k] + [KINDS[k]];
    Overlay(w.recorded, DocsOf(w.docs, KINDS[..k]), w.docs, KINDS[k]);
  }

  lemma Overlay(recorded: map<Kind, Digest>, some: map<Kind, Digest>, docs: map<Kind, Digest>, kind: Kind)
    requires kind !in some
    ensures kind in docs ==> recorded + some[kind := docs[kind]] == (recorded + some)[kind := docs[kind]]
    ensures kind in docs && kind in recorded && recorded[kind] == docs[kind] ==>
      recorded + some[kind := docs[kind]] == recorded + some
  {
  }

  lemma AllRecorded(w: World)
    ensures RecordedUpTo(w, |KINDS|) == Reconciled(w)
  {
    forall kind: Kind ensures kind in KINDS[..|KINDS|] { KindsAreAll(kind); assert KINDS[..|KINDS|] == KINDS; }
    assert RecordedUpTo(w, |KINDS|).recorded == w.recorded + w.docs;
  }

  lemma RecordingMovesOn(before: World, after: World)
    requires after == before.(recorded := after.recorded)
    ensures Later(before, after)
  {
  }

  lemma InspectedIsRecorded(refs: map<Kind, Digest>, docs: map<Kind, Digest>, after: map<Kind, Digest>, kind: Kind)
    requires kind in docs && (kind !in refs || refs[kind] != docs[kind]) ==> kind in after && after[kind] == docs[kind]
    ensures RecordedAs(refs, docs, after, kind)
  {
  }

  // ---- what was read --------------------------------------------------------------------------

  lemma ReadInOrder(k: nat)
    requires k < |KINDS|
    ensures forall kind :: DocumentRead(kind) == k + 1 <==> kind == KINDS[k]
  {
    assert KINDS == [TaskDoc, SpecDoc, PlanDoc, TodoDoc, ReportDoc];
  }

  lemma GatesInOrder(k: nat)
    requires k < |GATES|
    ensures forall g :: GateRead(g) == k + 6 <==> g == GATES[k]
  {
    assert GATES == [TaskGate, SpecGate, PlanGate];
  }

  /** What the reads bring together is the patchwork, but for the item, which does not matter here. */
  lemma PatchedFrom(s: seq<World>, docs: map<Kind, Digest>, groups: map<Gate, seq<set<Digest>>>,
                    recorded: map<Kind, Digest>, rest: World)
    requires |s| == READS && recorded == s[0].recorded
    requires forall kind :: kind in docs <==> kind in KINDS && kind in s[DocumentRead(kind)].docs
    requires forall kind :: kind in docs ==> docs[kind] == s[DocumentRead(kind)].docs[kind]
    requires forall g :: g in groups <==> g in GATES && g in s[GateRead(g)].confirmations
    requires forall g :: g in groups ==> groups[g] == s[GateRead(g)].confirmations[g]
    requires rest.revision == s[9].revision && rest.implementation == s[10].implementation
    requires rest.verification == s[11].verification && rest.review == s[12].review
    requires rest.report == s[13].report && rest.effects == s[14].effects
    ensures Compute(rest.(docs := docs, recorded := recorded, confirmations := groups)) == Compute(Patchwork(s))
  {
    hide DocumentRead, GateRead, Resolve;
    assert docs == DocsRead(s) && groups == GroupsRead(s);
  }

  lemma SameDocs(s: seq<World>, inspected: seq<World>)
    requires |s| == READS && s[..6] == inspected
    ensures forall kind :: s[DocumentRead(kind)] == inspected[DocumentRead(kind)]
  {
  }

  lemma SameGroups(s: seq<World>, confirmed: seq<World>)
    requires |s| == READS && s[..9] == confirmed
    ensures forall g :: s[GateRead(g)] == confirmed[GateRead(g)]
  {
  }

  lemma LaterIsReflexive(a: World)
    ensures Later(a, a)
  {
  }

  lemma KindsDiffer(k: nat)
    requires k < |KINDS|
    ensures KINDS[k] !in KINDS[..k] && forall kind :: kind in KINDS[..k + 1] <==> kind in KINDS[..k] || kind == KINDS[k]
  {
    assert KINDS == [TaskDoc, SpecDoc, PlanDoc, TodoDoc, ReportDoc];
    assert KINDS[..k + 1] == KINDS[..k] + [KINDS[k]];
  }

  function Finished(w: World, item: Item): World { w.(item := Some(Item(item.revision + 1, CompletedItem))) }

  /** Everything but the report is in order. */
  ghost predicate OnlyReportMissing(w: World) {
    var effects := CompletionFactOf(w.effects);
    Compute(w).reviewFresh && !Compute(w).reportCurrent && effects.noPending && effects.noUnknown
  }

  /** How far a turn is that nobody disturbs, when the item is ready or only its report is missing. */
  ghost predicate OnTrack(start: World, now: World, draft: Option<Digest>, evidence: Digest, steps: nat) {
    && (Compute(start).complete ==> now == start && steps == 0)
    && (OnlyReportMissing(start) && draft.Some? ==>
          || (now == start && steps == 0)
          || (steps == 1 && Compute(now).complete && ReportInputs(start) && now == Reported(start, draft.value, evidence)))
  }

  ghost predicate Promising(start: World, draft: Option<Digest>) {
    Compute(start).complete || (OnlyReportMissing(start) && draft.Some?)
  }

  lemma TrackStart(start: World, draft: Option<Digest>, evidence: Digest)
    ensures OnTrack(start, start, draft, evidence, 0)
  {
    hide Compute;
  }

  /** On the way the only steps are writing the report, at first, and completing. */
  lemma TrackNext(start: World, now: World, draft: Option<Digest>, evidence: Digest, steps: nat)
    requires OnTrack(start, now, draft, evidence, steps) && (draft.Some? ==> draft.value != "")
    ensures Promising(start, draft) ==>
      var r := Compute(now);
      && steps <= 1 && now.item == start.item && (OnlyReportMissing(start) ==> !Compute(start).complete)
      && r.implementationCurrent && r.verificationFresh && r.reviewFresh && (r.reportCurrent ==> r.complete)
    ensures Promising(start, draft) && !Compute(now).reportCurrent ==>
      && now == start && steps == 0 && draft.Some? && ReportInputs(start)
      && OnTrack(start, Reported(start, draft.value, evidence), draft, evidence, 1)
    ensures Promising(start, draft) && Compute(now).reportCurrent && !Compute(start).complete ==>
      draft.Some? && ReportInputs(start) && now == Reported(start, draft.value, evidence)
    ensures Promising(start, draft) && Compute(start).complete ==> now == start
    ensures !Promising(start, draft) ==> forall w, n :: OnTrack(start, w, draft, evidence, n)
  {
    if Compute(now).complete { AllNine(now); }
    if OnlyReportMissing(start) && draft.Some? { ReportThenComplete(start, draft.value, evidence); }
  }

  lemma ReviewNeeds(w: World)
    requires Compute(w).reviewFresh
    ensures ReportInputs(w) && w.revision.Some? && w.revision.value != ""
  {
    ReviewNeedsInputs(w);
  }

  lemma ReportThenComplete(w: World, d: Digest, evidence: Digest)
    requires OnlyReportMissing(w) && d != ""
    ensures ReportInputs(w) && Compute(Reported(w, d, evidence)).complete
    ensures Compute(w).implementationCurrent && Compute(w).verificationFresh && !Compute(w).complete
  {
    ReportBecomesCurrent(w, d, evidence);
  }

  /** Completion ready is the last link of the chain. */
  lemma AllNine(w: World)
    requires Compute(w).complete
    ensures Compute(w).All()
    ensures var r := Compute(w); r.implementationCurrent && r.verificationFresh && r.reviewFresh && r.reportCurrent
  {
    ChainIsOrdered(InputsOf(w));
    assert Compute(w).Stages()[8];
  }
}
