/** Runs of the protocol over all scopes of one home, and what holds of every run. */
module SettingsHistory {
  import opened Wrappers
  import opened SettingsModel
  import opened SettingsProtocol

  datatype Event = Event(at: Binding, action: Action)

  datatype World = World(user: Binding, disks: map<Binding, Disk>)
  {
    function At(b: Binding): Disk { if b in disks then disks[b] else EMPTY_DISK }
    function Registry(): seq<Entry> { At(user).Idx().registry }
  }

  lemma Elsewhere(user: Binding, before: map<Binding, Disk>, after: map<Binding, Disk>, b: Binding, c: Binding)
    requires before - {b} == after - {b}
    ensures c != b ==> World(user, before).At(c) == World(user, after).At(c)
    ensures before - {b, c} == after - {b, c}
  {
    assert before - {b, c} == before - {b} - {c};
    assert after - {b, c} == after - {b} - {c};
    if c != b {
      assert c in before <==> c in before - {b};
      assert c in after <==> c in after - {b};
      assert c in before ==> (before - {b})[c] == (after - {b})[c];
    }
  }

  /** The scope holds a record, a pending operation or a credential. */
  ghost predicate Occupied(d: Disk) {
    d.Idx().records != [] || d.Idx().refs != [] || d.vault != map[]
  }

  ghost predicate Covers(registry: seq<Entry>, b: Binding) {
    exists e :: e in registry && e.binding == b && e.state != Removed
  }

  ghost predicate HasState(registry: seq<Entry>, b: Binding, state: EntryState) {
    exists e :: e in registry && e.binding == b && e.state == state
  }

  ghost predicate RegistryCovers(w: World, registry: seq<Entry>) {
    forall b :: b in w.disks && b != w.user && Occupied(w.disks[b]) ==> Covers(registry, b)
  }

  ghost predicate OnlyWorkspaces(w: World, registry: seq<Entry>) {
    forall e :: e in registry ==> e.binding != w.user && WorkspaceName(e.binding)
  }

  ghost predicate Allowed(w: World, e: Event) {
    && Enabled(w.At(e.at), e.action)
    && (match e.action
        case Stage(j) => j.SetJournal? ==> RecordFields(j.record) && j.record.binding == e.at
        case Link(op) =>
          w.At(e.at).journals[op].SetJournal? && e.at != w.user ==> Covers(w.Registry(), e.at)
        case Enroll(registry, _) => e.at == w.user && OnlyWorkspaces(w, registry) && RegistryCovers(w, registry)
        case _ => true)
  }

  /** When the journal is staged, its reference may follow. */
  ghost predicate MayBegin(w: World, b: Binding, j: Journal) {
    var i := w.At(b).Idx();
    && j.op !in i.refs
    && (match j
        case SetJournal(_, _, record, _) =>
          i.refs == [] && RecordFields(record) && record.binding == b && (b != w.user ==> Covers(w.Registry(), b))
        case RemoveJournal(_, _, _, _) =>
          forall o :: o in i.refs ==>
            o in w.At(b).journals && w.At(b).journals[o].RemoveJournal? && Committed(i, w.At(b).journals[o]))
  }

  /** The state once the journal file and its reference are written. */
  function Begun(d: Disk, j: Journal): Disk {
    var i := d.Idx();
    d.(index := Some(i.(revision := i.revision + 1, refs := i.refs + [j.op])),
       journals := d.journals[j.op := j], minted := d.minted + MintedBy(j))
  }

  ghost function Happen(w: World, e: Event): World
    requires Allowed(w, e)
  {
    w.(disks := w.disks[e.at := Apply(w.At(e.at), e.action)])
  }

  ghost function Replay(w: World, log: seq<Event>): Option<World> {
    if log == [] then Some(w)
    else
      var before := Replay(w, log[..|log| - 1]);
      if before.Some? && Allowed(before.value, log[|log| - 1])
      then Some(Happen(before.value, log[|log| - 1]))
      else None
  }

  ghost predicate Reaches(w: World, log: seq<Event>, v: World) { Replay(w, log) == Some(v) }

  lemma ReachesOneMore(w: World, log: seq<Event>, v: World, e: Event)
    requires Reaches(w, log, v) && Allowed(v, e)
    ensures Reaches(w, log + [e], Happen(v, e))
  {
    assert (log + [e])[..|log|] == log;
  }

  lemma {:induction false} ReplayInTwo(w: World, first: seq<Event>, second: seq<Event>, v: World)
    requires Reaches(w, first + second, v)
    ensures exists m :: Reaches(w, first, m) && Reaches(m, second, v)
    decreases |second|
  {
    if second == [] {
      assert first + second == first;
      assert Reaches(v, second, v);
    } else {
      var n := |second| - 1;
      assert (first + second)[..|first + second| - 1] == first + second[..n];
      var u := Replay(w, first + second[..n]).value;
      ReplayInTwo(w, first, second[..n], u);
      var m :| Reaches(w, first, m) && Reaches(m, second[..n], u);
      assert Reaches(m, second, v);
    }
  }

  // ---- invariants of every run ---------------------------------------------------------

  ghost predicate WorldInv(w: World) {
    DisksInv(w) && Belonging(w) && OneRegistry(w) && RegistryCovers(w, w.Registry())
  }

  /** Every record kept for a scope names that scope. */
  ghost predicate Belongs(b: Binding, d: Disk) {
    && (forall r :: r in d.Idx().records ==> r.binding == b)
    && (forall op :: op in d.journals ==> d.journals[op].record.binding == b)
  }

  ghost predicate Belonging(w: World) { forall b :: b in w.disks ==> Belongs(b, w.disks[b]) }

  ghost predicate DisksInv(w: World) { forall b :: b in w.disks ==> Inv(w.disks[b]) }

  ghost predicate OneRegistry(w: World) {
    && (forall b :: b in w.disks && b != w.user ==> w.disks[b].Idx().registry == [])
    && OnlyWorkspaces(w, w.Registry())
  }

  // Only linking a `set` can make an empty scope occupied.
  lemma StaysEmpty(d: Disk, a: Action)
    requires Inv(d) && Enabled(d, a) && !Occupied(d)
    requires a.Link? ==> d.journals[a.op].RemoveJournal?
    ensures !Occupied(Apply(d, a))
  {
  }

  lemma OccupiedWasCovered(w: World, e: Event)
    requires WorldInv(w) && Allowed(w, e) && e.at != w.user
    requires Occupied(Apply(w.At(e.at), e.action))
    ensures Covers(w.Registry(), e.at)
  {
    EmptyDiskInv();
    if !Occupied(w.At(e.at)) && (e.action.Link? ==> w.At(e.at).journals[e.action.op].RemoveJournal?) {
      StaysEmpty(w.At(e.at), e.action);
    }
  }

  lemma RegistryAfter(d: Disk, a: Action)
    requires Enabled(d, a)
    ensures Apply(d, a).Idx().registry == if a.Enroll? then a.registry else d.Idx().registry
  {
  }

  lemma EventKeepsCoverage(w: World, e: Event)
    requires WorldInv(w) && Allowed(w, e)
    ensures RegistryCovers(Happen(w, e), Happen(w, e).Registry())
  {
    hide Inv, Occupied, Covers, Enabled, Apply;
    var v := Happen(w, e);
    RegistryAfter(w.At(e.at), e.action);
    forall b | b in v.disks && b != v.user && Occupied(v.disks[b]) ensures Covers(v.Registry(), b) {
      if b == e.at {
        OccupiedWasCovered(w, e);
      } else {
        assert b in w.disks && w.disks[b] == v.disks[b];
      }
    }
  }

  lemma EventKeepsDisks(w: World, e: Event)
    requires DisksInv(w) && Allowed(w, e)
    ensures DisksInv(Happen(w, e))
  {
    EmptyDiskInv();
    StepKeepsInv(w.At(e.at), e.action);
  }

  lemma EventKeepsRegistry(w: World, e: Event)
    requires OneRegistry(w) && Allowed(w, e)
    ensures OneRegistry(Happen(w, e))
  {
    assert !e.action.Enroll? ==> Apply(w.At(e.at), e.action).Idx().registry == w.At(e.at).Idx().registry;
  }

  lemma BelongsKept(b: Binding, d: Disk, a: Action)
    requires Belongs(b, d) && Enabled(d, a)
    requires a.Stage? && a.journal.SetJournal? ==> a.journal.record.binding == b
    ensures Belongs(b, Apply(d, a))
  {
    hide JournalShape, Stale, DistinctEntries;
  }

  lemma EventKeepsBelonging(w: World, e: Event)
    requires Belonging(w) && Allowed(w, e)
    ensures Belonging(Happen(w, e))
  {
    hide Enabled, Apply, RecordFields, RegistryCovers, Covers;
    assert Belongs(e.at, w.At(e.at));
    BelongsKept(e.at, w.At(e.at), e.action);
  }

  lemma EventKeepsInv(w: World, e: Event)
    requires WorldInv(w) && Allowed(w, e)
    ensures WorldInv(Happen(w, e))
  {
    hide Allowed, DisksInv, Belonging, OneRegistry, RegistryCovers;
    EventKeepsDisks(w, e);
    EventKeepsBelonging(w, e);
    EventKeepsRegistry(w, e);
    EventKeepsCoverage(w, e);
  }

  /** Every durable state of every run satisfies the invariant, crashes and retries included. */
  lemma {:induction false} RunKeepsInv(w: World, log: seq<Event>, v: World)
    requires WorldInv(w) && Reaches(w, log, v)
    ensures WorldInv(v)
    ensures v.user == w.user
    decreases |log|
  {
    if log != [] {
      var u := Replay(w, log[..|log| - 1]).value;
      RunKeepsInv(w, log[..|log| - 1], u);
      EventKeepsInv(u, log[|log| - 1]);
    }
  }

  // ---- edits of the registry -----------------------------------------------------------

  lemma ReplaceCovers(es: seq<Entry>, entry: Entry, b: Binding)
    ensures DistinctEntries(es) ==> DistinctEntries(ReplaceEntry(es, entry))
    ensures Covers(es, b) && (b == entry.binding ==> entry.state != Removed) ==> Covers(ReplaceEntry(es, entry), b)
    ensures b != entry.binding && Covers(ReplaceEntry(es, entry), b) ==> Covers(es, b)
  {
    var changed := ReplaceEntry(es, entry);
    if Covers(es, b) {
      var k :| 0 <= k < |es| && es[k].binding == b && es[k].state != Removed;
      assert changed[k] in changed;
    }
    if Covers(changed, b) && b != entry.binding {
      var k :| 0 <= k < |es| && changed[k].binding == b && changed[k].state != Removed;
      assert es[k] in es;
    }
  }

  lemma UpsertCovers(es: seq<Entry>, entry: Entry, b: Binding)
    requires DistinctEntries(es) && entry.state != Removed
    ensures DistinctEntries(UpsertEntry(es, entry))
    ensures forall e :: e in UpsertEntry(es, entry) ==> e == entry || e in es
    ensures Covers(es, b) ==> Covers(UpsertEntry(es, entry), b)
    ensures Covers(UpsertEntry(es, entry), entry.binding)
  {
    ReplaceCovers(es, entry, b);
    var changed := ReplaceEntry(es, entry);
    if FindEntry(es, entry.binding).Some? {
      var k :| 0 <= k < |es| && es[k].binding == entry.binding;
      assert changed[k] == entry && entry in UpsertEntry(es, entry);
    } else {
      assert forall k :: 0 <= k < |es| ==> es[k] in es;
      assert entry in UpsertEntry(es, entry);
      if Covers(es, b) {
        var e :| e in changed && e.binding == b && e.state != Removed;
        assert e in UpsertEntry(es, entry);
      }
    }
  }
}
