/** The protocol refines a store in which `set` and `remove` are single atomic steps. */
module SettingsAtomicity {
  import opened SettingsModel
  import opened SettingsProtocol
  import opened SettingsHistory

  /** What a caller can observe of one scope: which records are active, with which secret, and
      which settings are tombstoned. */
  datatype View = View(active: set<(Record, Secret)>, tombstones: set<Tombstone>)

  ghost function Abs(d: Disk): View
    requires VaultOk(d)
  {
    View((set r | r in d.Idx().records :: (r, d.vault[r.Account()])), set t | t in d.Idx().tombstones)
  }

  /** An atomic `set`: the record replaces the one of the same key and its tombstone goes. */
  ghost function PutView(v: View, record: Record, value: Secret): View {
    View((set p | p in v.active && !p.0.SameKey(record)) + {(record, value)},
         set t | t in v.tombstones && t.id != record.id)
  }

  /** An atomic `remove`: the record leaves and its tombstone is kept. */
  ghost function DeleteView(v: View, record: Record, tombstone: Tombstone): View {
    View((set p | p in v.active && p.0 != record), v.tombstones + {tombstone})
  }

  ghost function CommitView(d: Disk, op: Token): View
    requires VaultOk(d) && Enabled(d, Commit(op))
  {
    match d.journals[op]
    case SetJournal(_, _, record, _) => PutView(Abs(d), record, d.vault[record.Account()])
    case RemoveJournal(_, _, record, tombstone) => DeleteView(Abs(d), record, tombstone)
  }

  lemma CommitSetRecords(d: Disk, op: Token, r: Record)
    requires Inv(d) && Enabled(d, Commit(op)) && d.journals[op].SetJournal?
    ensures r in Apply(d, Commit(op)).Idx().records
      <==> (r in d.Idx().records && !r.SameKey(d.journals[op].record)) || r == d.journals[op].record
  {
    assert Fits(d.Idx(), d.journals[op]);
    if r in d.Idx().records { ReplacedIsPrior(d.Idx(), d.journals[op], r); }
  }

  lemma CommitSetPair(d: Disk, op: Token, p: (Record, Secret))
    requires Inv(d) && Enabled(d, Commit(op)) && d.journals[op].SetJournal?
    requires VaultOk(Apply(d, Commit(op)))
    ensures p in Abs(Apply(d, Commit(op))).active <==> p in CommitView(d, op).active
  {
    CommitSetRecords(d, op, p.0);
  }

  lemma CommitSetRefines(d: Disk, op: Token)
    requires Inv(d) && Enabled(d, Commit(op)) && d.journals[op].SetJournal?
    requires VaultOk(Apply(d, Commit(op)))
    ensures Abs(Apply(d, Commit(op))) == CommitView(d, op)
  {
    hide IndexOk, RefsOk, TokensOk, JournalShape;
    var before, after := CommitView(d, op), Abs(Apply(d, Commit(op)));
    forall p ensures p in after.active <==> p in before.active { CommitSetPair(d, op, p); }
    assert after.active == before.active;
    assert after.tombstones == before.tombstones;
  }

  lemma CommitRemovePair(d: Disk, op: Token, p: (Record, Secret))
    requires Inv(d) && Enabled(d, Commit(op)) && d.journals[op].RemoveJournal?
    requires VaultOk(Apply(d, Commit(op)))
    ensures p in Abs(Apply(d, Commit(op))).active <==> p in CommitView(d, op).active
  {
    var i, j, e := d.Idx(), d.journals[op], Apply(d, Commit(op));
    assert Fits(i, j);
    if p.0 in i.records && p.0.id == j.record.id { KeyIdentifiesRecord(i.records, p.0, j.record); }
    assert p.0 in e.Idx().records <==> p.0 in i.records && p.0 != j.record;
  }

  lemma CommitRemoveRefines(d: Disk, op: Token)
    requires Inv(d) && Enabled(d, Commit(op)) && d.journals[op].RemoveJournal?
    requires VaultOk(Apply(d, Commit(op)))
    ensures Abs(Apply(d, Commit(op))) == CommitView(d, op)
  {
    hide IndexOk, RefsOk, TokensOk, JournalShape;
    var before, after := CommitView(d, op), Abs(Apply(d, Commit(op)));
    forall p ensures p in after.active <==> p in before.active { CommitRemovePair(d, op, p); }
    assert after.active == before.active;
    assert after.tombstones == before.tombstones;
  }

  lemma SecretsKept(d: Disk, a: Action, r: Record)
    requires Inv(d) && Enabled(d, a) && r in d.Idx().records
    ensures r.Account() in Apply(d, a).vault && Apply(d, a).vault[r.Account()] == d.vault[r.Account()]
  {
    assert Active(d.Idx(), r.Account());
    assert a.Put? ==> Linked(d, a.op) && Owed(d, d.journals[a.op].record.Account());
    assert a.Drop? ==> forall c :: c in Stale(d.Idx(), d.journals[a.op]) ==> Owed(d, c);
  }

  /** Refinement: the commit write is the atomic step, every other durable effect is invisible. */
  lemma StepRefines(d: Disk, a: Action)
    requires Inv(d) && Enabled(d, a)
    ensures Inv(Apply(d, a))
    ensures Abs(Apply(d, a)) == if a.Commit? then CommitView(d, a.op) else Abs(d)
  {
    hide Inv, Abs, VaultOk, Apply;
    StepKeepsInv(d, a);
    if a.Commit? {
      if d.journals[a.op].SetJournal? { CommitSetRefines(d, a.op); } else { CommitRemoveRefines(d, a.op); }
    } else {
      QuietStep(d, a);
    }
  }

  lemma QuietStep(d: Disk, a: Action)
    requires Inv(d) && Enabled(d, a) && !a.Commit?
    requires VaultOk(Apply(d, a))
    ensures Abs(Apply(d, a)) == Abs(d)
  {
    forall r | r in d.Idx().records { SecretsKept(d, a, r); }
    SameView(d, Apply(d, a));
  }

  lemma SameView(d: Disk, e: Disk)
    requires VaultOk(d) && VaultOk(e)
    requires d.Idx().records == e.Idx().records && d.Idx().tombstones == e.Idx().tombstones
    requires forall r :: r in d.Idx().records ==> d.vault[r.Account()] == e.vault[r.Account()]
    ensures Abs(d) == Abs(e)
  {
  }

  lemma RunInvAt(w: World, log: seq<Event>, v: World, b: Binding)
    requires WorldInv(w) && Reaches(w, log, v)
    ensures Inv(v.At(b))
  {
    EmptyDiskInv();
    RunKeepsInv(w, log, v);
  }

  ghost predicate NoCommit(log: seq<Event>, b: Binding) {
    forall k :: 0 <= k < |log| && log[k].at == b ==> !log[k].action.Commit?
  }

  lemma QuietEvent(w: World, e: Event, b: Binding)
    requires Inv(w.At(b)) && Allowed(w, e) && (e.at == b ==> !e.action.Commit?)
    ensures Inv(Happen(w, e).At(b)) && Abs(Happen(w, e).At(b)) == Abs(w.At(b))
  {
    if e.at == b { StepRefines(w.At(b), e.action); }
  }

  /** Between two commit writes nothing changes what a scope holds, however many operations and
      recoveries start, fail or crash in between. */
  lemma {:induction false} NoCommitNoChange(w: World, log: seq<Event>, v: World, b: Binding)
    requires WorldInv(w) && Reaches(w, log, v) && NoCommit(log, b)
    ensures Inv(w.At(b)) && Inv(v.At(b))
    ensures Abs(v.At(b)) == Abs(w.At(b))
    decreases |log|
  {
    hide Inv, Abs, VaultOk, Allowed, Happen, WorldInv;
    RunInvAt(w, [], w, b);
    RunInvAt(w, log, v, b);
    if log != [] {
      var n := |log| - 1;
      var u := Replay(w, log[..n]).value;
      assert forall k :: 0 <= k < n ==> log[..n][k] == log[k];
      NoCommitNoChange(w, log[..n], u, b);
      QuietEvent(u, log[n], b);
    }
  }

  // ---- compare-and-swap ----------------------------------------------------------------

  lemma IndexWriteRaisesRevision(d: Disk, a: Action)
    requires Inv(d) && Enabled(d, a)
    ensures Apply(d, a).index == d.index || Apply(d, a).Idx().revision > d.Idx().revision
  {
  }

  /** The revision is a sound compare-and-swap token: over any run it never falls, and an index
      seen again at the same revision is the very same index. */
  lemma {:induction false} RevisionIdentifiesIndex(w: World, log: seq<Event>, v: World, b: Binding)
    requires WorldInv(w) && Reaches(w, log, v)
    ensures v.At(b).Idx().revision >= w.At(b).Idx().revision
    ensures v.At(b).Idx().revision == w.At(b).Idx().revision ==> v.At(b).index == w.At(b).index
    decreases |log|
  {
    hide Inv, WorldInv, Enabled;
    if log != [] {
      var n := |log| - 1;
      var u := Replay(w, log[..n]).value;
      RevisionIdentifiesIndex(w, log[..n], u, b);
      if log[n].at == b {
        RunInvAt(w, log[..n], u, b);
        IndexWriteRaisesRevision(u.At(b), log[n].action);
      }
    }
  }

  // ---- no resurrection -----------------------------------------------------------------

  ghost predicate ActiveGeneration(d: Disk, g: Token) {
    exists r :: r in d.Idx().records && r.generation == g
  }

  /** This journal has not been committed but its commit write may still come. */
  ghost predicate Undecided(d: Disk, j: Journal) {
    j.phase == Prepared || (j.phase == CredentialWritten && Linked(d, j.op) && !Committed(d.Idx(), j))
  }

  ghost predicate GenerationsApart(d: Disk) {
    forall op, p :: op in d.journals && p in d.journals && op != p
      && d.journals[op].SetJournal? && d.journals[p].SetJournal?
      ==> d.journals[op].record.generation != d.journals[p].record.generation
  }

  /** Set journals carry generations of their own, not yet active while undecided. */
  ghost predicate GenerationsOk(d: Disk) {
    && GenerationsApart(d)
    && (forall op :: op in d.journals && d.journals[op].SetJournal? && Undecided(d, d.journals[op])
          ==> !ActiveGeneration(d, d.journals[op].record.generation))
  }

  /** Drawn, not active, and in no journal that could still commit it. */
  ghost predicate Spent(d: Disk, g: Token) {
    && g in d.minted
    && !ActiveGeneration(d, g)
    && (forall op :: op in d.journals && d.journals[op].SetJournal? && d.journals[op].record.generation == g
          ==> d.journals[op].phase != Prepared && (d.journals[op].phase == CredentialWritten ==> op !in d.Idx().refs))
  }

  lemma RecordsAfter(d: Disk, a: Action, r: Record)
    requires Inv(d) && Enabled(d, a) && r in Apply(d, a).Idx().records
    ensures r in d.Idx().records || (a.Commit? && d.journals[a.op].SetJournal? && r == d.journals[a.op].record)
  {
  }

  lemma UndecidedBefore(d: Disk, a: Action, op: Token)
    requires Inv(d) && Enabled(d, a) && op in Apply(d, a).journals && op in d.journals
    requires d.journals[op].SetJournal? && Undecided(Apply(d, a), Apply(d, a).journals[op])
    ensures Undecided(d, d.journals[op]) && a != Commit(op)
  {
    var e := Apply(d, a);
    if a.Commit? {
      assert d.journals[a.op].SetJournal? ==> d.journals[a.op].record in e.Idx().records;
      assert Fits(d.Idx(), d.journals[a.op]);
      assert op in d.Idx().refs ==> d.Idx().refs == [op];
    } else {
      assert e.Idx().records == d.Idx().records;
    }
  }

  lemma ApartKept(d: Disk, a: Action)
    requires Inv(d) && GenerationsApart(d) && Enabled(d, a)
    ensures GenerationsApart(Apply(d, a))
  {
    hide VaultOk, IndexOk, RefsOk;
  }

  lemma GenerationsKept(d: Disk, a: Action)
    requires Inv(d) && GenerationsOk(d) && Enabled(d, a)
    ensures GenerationsOk(Apply(d, a))
  {
    hide VaultOk, RefsOk;
    ApartKept(d, a);
    var e := Apply(d, a);
    forall op | op in e.journals && e.journals[op].SetJournal? && Undecided(e, e.journals[op])
      ensures !ActiveGeneration(e, e.journals[op].record.generation)
    {
      if op in d.journals { UndecidedBefore(d, a, op); }
      if r :| r in e.Idx().records && r.generation == e.journals[op].record.generation {
        RecordsAfter(d, a, r);
      }
    }
  }

  lemma SpentStays(d: Disk, a: Action, g: Token)
    requires Inv(d) && Enabled(d, a) && Spent(d, g)
    ensures Spent(Apply(d, a), g)
  {
    hide VaultOk, IndexOk, JournalShape, DistinctEntries, Fits;
    var e := Apply(d, a);
    if r :| r in e.Idx().records && r.generation == g {
      RecordsAfter(d, a, r);
    }
  }

  lemma LeavingIsSpent(d: Disk, a: Action, g: Token)
    requires Inv(d) && GenerationsOk(d) && Enabled(d, a)
    requires ActiveGeneration(d, g) && !ActiveGeneration(Apply(d, a), g)
    ensures Spent(Apply(d, a), g)
  {
    assert a.Commit?;
    var j := d.journals[a.op];
    assert j.SetJournal? ==> j.record in Apply(d, a).Idx().records;
  }

  lemma {:induction false} RunGenerations(w: World, log: seq<Event>, v: World, b: Binding)
    requires WorldInv(w) && GenerationsOk(w.At(b)) && Reaches(w, log, v)
    ensures GenerationsOk(v.At(b))
    decreases |log|
  {
    hide Inv, GenerationsOk, WorldInv, Enabled;
    if log != [] {
      var n := |log| - 1;
      var u := Replay(w, log[..n]).value;
      RunGenerations(w, log[..n], u, b);
      if log[n].at == b {
        RunInvAt(w, log[..n], u, b);
        GenerationsKept(u.At(b), log[n].action);
      }
    }
  }

  lemma {:induction false} RunSpent(w: World, log: seq<Event>, v: World, b: Binding, g: Token)
    requires WorldInv(w) && Reaches(w, log, v) && Spent(w.At(b), g)
    ensures Spent(v.At(b), g)
    decreases |log|
  {
    hide Inv, Spent, WorldInv, Enabled;
    if log != [] {
      var n := |log| - 1;
      var u := Replay(w, log[..n]).value;
      RunSpent(w, log[..n], u, b, g);
      if log[n].at == b {
        RunInvAt(w, log[..n], u, b);
        SpentStays(u.At(b), log[n].action, g);
      }
    }
  }

  lemma {:induction false} RunLeaves(w: World, log: seq<Event>, v: World, b: Binding, g: Token)
    requires WorldInv(w) && GenerationsOk(w.At(b)) && Reaches(w, log, v)
    requires ActiveGeneration(w.At(b), g) && !ActiveGeneration(v.At(b), g)
    ensures Spent(v.At(b), g)
    decreases |log|
  {
    hide Inv, Spent, WorldInv, Enabled, GenerationsOk, ActiveGeneration;
    if log != [] {
      var n := |log| - 1;
      var u := Replay(w, log[..n]).value;
      if log[n].at != b {
        RunLeaves(w, log[..n], u, b, g);
      } else {
        RunInvAt(w, log[..n], u, b);
        RunGenerations(w, log[..n], u, b);
        if ActiveGeneration(u.At(b), g) {
          LeavingIsSpent(u.At(b), log[n].action, g);
        } else {
          RunLeaves(w, log[..n], u, b, g);
          SpentStays(u.At(b), log[n].action, g);
        }
      }
    }
  }

  /** No resurrection: in every run from an empty home, a record generation that was active and has
      left the index never becomes active again, whatever is retried or recovered later. */
  lemma NoResurrection(user: Binding, start: seq<Event>, w: World, first: seq<Event>, m: World,
                       second: seq<Event>, v: World, b: Binding, g: Token)
    requires Reaches(World(user, map[]), start, w) && Reaches(w, first, m) && Reaches(m, second, v)
    requires ActiveGeneration(w.At(b), g) && !ActiveGeneration(m.At(b), g)
    ensures !ActiveGeneration(v.At(b), g)
  {
    EmptyHome(user, b);
    hide Inv, WorldInv, Reaches, GenerationsOk, ActiveGeneration;
    RunKeepsInv(World(user, map[]), start, w);
    RunGenerations(World(user, map[]), start, w, b);
    RunLeaves(w, first, m, b, g);
    RunKeepsInv(w, first, m);
    RunSpent(m, second, v, b, g);
  }

  lemma EmptyHome(user: Binding, b: Binding)
    ensures WorldInv(World(user, map[])) && GenerationsOk(World(user, map[]).At(b))
  {
  }

  /** At no state of the run from an empty home was the generation active in the scope. */
  ghost predicate NeverActive(user: Binding, log: seq<Event>, b: Binding, g: Token) {
    forall k, m :: 0 <= k <= |log| && Reaches(World(user, map[]), log[..k], m) ==> !ActiveGeneration(m.At(b), g)
  }

  /** A `set` that is not decided yet names a generation that was never active. */
  lemma UndecidedWasNeverActive(user: Binding, log: seq<Event>, v: World, b: Binding, op: Token)
    requires Reaches(World(user, map[]), log, v) && op in v.At(b).journals && v.At(b).journals[op].SetJournal?
    requires Undecided(v.At(b), v.At(b).journals[op])
    ensures NeverActive(user, log, b, v.At(b).journals[op].record.generation)
  {
    EmptyHome(user, b);
    hide Inv, WorldInv, ActiveGeneration;
    var start, g := World(user, map[]), v.At(b).journals[op].record.generation;
    RunGenerations(start, log, v, b);
    forall k, m | 0 <= k <= |log| && Reaches(start, log[..k], m) ensures !ActiveGeneration(m.At(b), g) {
      assert log == log[..k] + log[k..];
      ReplayInTwo(start, log[..k], log[k..], v);
      RunKeepsInv(start, log[..k], m);
      RunGenerations(start, log[..k], m, b);
      if ActiveGeneration(m.At(b), g) {
        RunLeaves(m, log[k..], v, b, g);
        RunInvAt(start, log, v, b);
        SpentIsDecided(v.At(b), op);
      }
    }
  }

  lemma SpentIsDecided(d: Disk, op: Token)
    requires Inv(d) && op in d.journals && d.journals[op].SetJournal? && Spent(d, d.journals[op].record.generation)
    ensures !Undecided(d, d.journals[op])
  {
  }

  /** A tombstoned setting comes back only through the commit write of a `set` of that setting, with
      a generation that was active at no earlier state of the run. */
  lemma TombstoneLiftedOnlyBySet(user: Binding, log: seq<Event>, v: World, e: Event, t: Tombstone)
    requires Reaches(World(user, map[]), log, v) && Allowed(v, e)
    requires t in v.At(e.at).Idx().tombstones && t !in Happen(v, e).At(e.at).Idx().tombstones
    ensures e.action.Commit?
    ensures var j := v.At(e.at).journals[e.action.op];
      j.SetJournal? && j.record.id == t.id && NeverActive(user, log, e.at, j.record.generation)
  {
    EmptyHome(user, e.at);
    RunInvAt(World(user, map[]), log, v, e.at);
    hide Reaches, WorldInv, NeverActive;
    var d := v.At(e.at);
    LiftedByCommit(d, e.action, t);
    UndecidedWasNeverActive(user, log, v, e.at, e.action.op);
  }

  lemma LiftedByCommit(d: Disk, a: Action, t: Tombstone)
    requires Inv(d) && Enabled(d, a)
    requires t in d.Idx().tombstones && t !in Apply(d, a).Idx().tombstones
    ensures a.Commit? && d.journals[a.op].SetJournal? && d.journals[a.op].record.id == t.id
    ensures Undecided(d, d.journals[a.op])
  {
    assert a.Commit?;
  }
}
