/** Crash recovery: what replaying the journals of a scope decides, and where it ends. */
module SettingsRecovery {
  import opened Wrappers
  import opened SettingsModel
  import opened SettingsProtocol
  import opened SettingsHistory
  import opened SettingsAtomicity

  /** What `_replay_journal` does with one referenced journal. */
  datatype Verdict =
    | Forward    // the commit is there: clean up the old credential and drop the reference
    | RollBack   // it is not: clean up the new credential and drop the reference
    | Recommit   // write the missing tombstone first, then clean up
    | Refuse     // fail closed

  function FindId(rs: seq<Record>, id: SettingId): (found: Option<Record>)
    ensures found.Some? ==> found.value in rs && found.value.id == id
    ensures found.None? ==> forall r :: r in rs ==> r.id != id
  {
    if rs == [] then None
    else if rs[0].id == id then Some(rs[0])
    else FindId(rs[1..], id)
  }

  function FindTombstone(ts: seq<Tombstone>, id: SettingId): (found: Option<Tombstone>)
    ensures found.Some? ==> found.value in ts && found.value.id == id
    ensures found.None? ==> forall t :: t in ts ==> t.id != id
  {
    if ts == [] then None
    else if ts[0].id == id then Some(ts[0])
    else FindTombstone(ts[1..], id)
  }

  /** The branch table for an interrupted `set`. */
  function JudgeSet(i: Index, phase: Phase, record: Record, prior: Option<Record>): Verdict {
    var active := FindId(i.records, record.id);
    var newActive := active.Some? && active.value.generation == record.generation;
    var oldActive := prior.Some? && active.Some? && active.value.id == prior.value.id
      && active.value.generation == prior.value.generation;
    if active.Some? && !newActive && !oldActive then Refuse
    else if newActive then Forward
    else if oldActive && phase in {Prepared, CredentialWritten, CleanupPending} then RollBack
    else if phase in {Prepared, CredentialWritten} then RollBack
    else if phase == MetadataCommitted then Forward
    else if phase == CleanupPending && prior.None? then RollBack
    else Refuse
  }

  /** The branch table for an interrupted `remove`. */
  function JudgeRemove(i: Index, phase: Phase, record: Record, tombstone: Tombstone): Verdict {
    var active := FindId(i.records, record.id);
    var existing := FindTombstone(i.tombstones, tombstone.id);
    if active.Some? && active.value.generation != record.generation then Refuse
    else if existing.Some? && existing.value != tombstone then Refuse
    else if phase == Prepared && existing.None? then RollBack
    else if phase !in {TombstoneCommitted, CredentialCleanupPending} && existing.None? then Refuse
    else if existing.None? then Recommit
    else Forward
  }

  function Judge(i: Index, j: Journal): Verdict {
    match j
    case SetJournal(_, phase, record, prior) => JudgeSet(i, phase, record, prior)
    case RemoveJournal(_, phase, record, tombstone) => JudgeRemove(i, phase, record, tombstone)
  }

  /** A `set` that was to replace a record of another package, whose roll-back has already failed
      once: its journal no longer tells which way to go. */
  predicate Undecidable(i: Index, j: Journal) {
    j.SetJournal? && !Committed(i, j) && j.phase == CleanupPending
    && j.prior.Some? && j.prior.value.id != j.record.id
  }

  /** An uncommitted `set` that was to replace the record of another package. */
  predicate Foreign(i: Index, j: Journal) {
    j.SetJournal? && !Committed(i, j) && j.prior.Some? && j.prior.value.id != j.record.id
  }

  ghost predicate Stuck(d: Disk) {
    exists op :: op in d.Idx().refs && op in d.journals && Undecidable(d.Idx(), d.journals[op])
  }

  /** Replay judges right: it goes forward exactly after the commit write, backward exactly before
      it, refuses exactly the undecidable `set`, and never has a tombstone to write again. */
  lemma JudgeIsRight(d: Disk, op: Token)
    requires Inv(d) && op in d.Idx().refs
    ensures var i, j := d.Idx(), d.journals[op];
      && (Judge(i, j) == Forward <==> Committed(i, j))
      && (Judge(i, j) == Refuse <==> Undecidable(i, j))
      && (Judge(i, j) == RollBack <==> !Committed(i, j) && !Undecidable(i, j))
  {
    var i, j := d.Idx(), d.journals[op];
    assert Fits(i, j);
    match j
    case SetJournal(_, _, record, prior) =>
      var active := FindId(i.records, record.id);
      if active.Some? {
        if record in i.records { KeyIdentifiesRecord(i.records, active.value, record); }
        else { KeyIdentifiesRecord(i.records, active.value, prior.value); }
      }
    case RemoveJournal(_, _, record, tombstone) =>
      var active := FindId(i.records, record.id);
      var existing := FindTombstone(i.tombstones, tombstone.id);
      if active.Some? && record in i.records { KeyIdentifiesRecord(i.records, active.value, record); }
      if existing.Some? && tombstone in i.tombstones { IdIdentifiesTombstone(i.tombstones, existing.value, tombstone); }
  }

  lemma LastKept(front: seq<Record>, j: Journal)
    requires DistinctKeys(front + [j.record])
    requires j.SetJournal? && JournalShape(j)
    ensures WithoutIds(front + [j.record], Gone(j)) == front
  {
    hide RecordFields;
    var rs := front + [j.record];
    forall k | 0 <= k < |front| ensures front[k].id !in Gone(j) {
      assert !rs[k].SameKey(rs[|front|]);
    }
    assert rs[..|rs| - 1] == front;
    assert WithoutIds(front, Gone(j)) == front;
  }

  /** Going forward after a committed `set`, the index already holds the records to be written. */
  lemma ForwardKeepsRecords(d: Disk, op: Token)
    requires Inv(d) && op in d.Idx().refs && d.journals[op].SetJournal? && Committed(d.Idx(), d.journals[op])
    ensures d.journals[op].record.Account() in d.vault
    ensures WithoutIds(d.Idx().records, Gone(d.journals[op])) + [d.journals[op].record] == d.Idx().records
  {
    assert Fits(d.Idx(), d.journals[op]);
    var rs := d.Idx().records;
    assert rs == rs[..|rs| - 1] + [d.journals[op].record];
    LastKept(rs[..|rs| - 1], d.journals[op]);
  }

  // ---- where recovery ends -------------------------------------------------------------

  /** The state a completed recovery leaves: nothing pending, no journal file, no credential but
      those of the active records. Each reference costs one index write. */
  ghost function Recovered(d: Disk): Disk {
    var i := d.Idx();
    Disk(
      if d.index.None? then None else Some(i.(revision := i.revision + |i.refs|, refs := [])),
      map[],
      map a | a in d.vault && Active(i, a) :: d.vault[a],
      d.minted)
  }

  ghost predicate Quiet(d: Disk) { d.Idx().refs == [] && d.journals == map[] }

  predicate Settles(a: Action) { a.Mark? || a.Drop? || a.Unlink? || a.Sweep? }

  lemma QuietIsRecovered(d: Disk)
    requires Inv(d) && Quiet(d)
    ensures Recovered(d) == d
    ensures forall a :: a in d.vault <==> Active(d.Idx(), a)
  {
    assert forall a :: !Owed(d, a);
    forall a ensures a in d.vault <==> Active(d.Idx(), a) {
    }
  }

  lemma RecoveredIndex(d: Disk)
    ensures Recovered(d).index.Some? <==> d.index.Some?
    ensures Recovered(d).Idx().records == d.Idx().records && Recovered(d).Idx().tombstones == d.Idx().tombstones
    ensures Recovered(d).Idx().registry == d.Idx().registry
  {
  }

  lemma RecoveredInv(d: Disk)
    requires Inv(d)
    ensures Inv(Recovered(d)) && Quiet(Recovered(d))
  {
    var e := Recovered(d);
    assert forall r :: r in d.Idx().records ==> Active(d.Idx(), r.Account());
    assert forall a :: Active(e.Idx(), a) <==> Active(d.Idx(), a);
    VaultPointwise(e);
  }

  lemma RecoveredAgrees(d: Disk)
    requires Inv(d)
    ensures Inv(Recovered(d)) && Quiet(Recovered(d))
    ensures Abs(Recovered(d)) == Abs(d)
    ensures Recovered(Recovered(d)) == Recovered(d)
  {
    hide RefsOk, TokensOk, IndexOk;
    RecoveredInv(d);
    assert forall r :: r in d.Idx().records ==> Active(d.Idx(), r.Account());
    SameView(d, Recovered(d));
    QuietIsRecovered(Recovered(d));
  }

  /** Whatever part of a recovery has been done, completing it leads to the same state. */
  lemma SettlingKeepsGoal(d: Disk, a: Action)
    requires Inv(d) && Enabled(d, a) && Settles(a)
    ensures Recovered(Apply(d, a)) == Recovered(d)
  {
    hide Inv, Enabled, Apply, Active;
    SettlingKeepsIndex(d, a);
    SettlingKeepsVault(d, a);
  }

  lemma SettlingKeepsIndex(d: Disk, a: Action)
    requires Inv(d) && Enabled(d, a) && Settles(a)
    ensures var e := Apply(d, a);
      && Recovered(e).index == Recovered(d).index && e.minted == d.minted && e.Idx().records == d.Idx().records
  {
    hide VaultOk, TokensOk, Stale;
  }

  lemma SettlingKeepsVault(d: Disk, a: Action)
    requires Inv(d) && Enabled(d, a) && Settles(a)
    ensures Recovered(Apply(d, a)).vault == Recovered(d).vault
  {
    hide TokensOk, IndexOk;
    var e := Apply(d, a);
    SettlingKeepsIndex(d, a);
    assert forall c :: Active(e.Idx(), c) <==> Active(d.Idx(), c);
    if a.Drop? {
      forall c | c in Stale(d.Idx(), d.journals[a.op]) ensures Owed(d, c) { }
    }
  }

  /** The log has grown from `base` without a commit write. */
  ghost predicate Calm(base: seq<Event>, log: seq<Event>) {
    base <= log && forall k :: |base| <= k < |log| ==> !log[k].action.Commit?
  }

  /** Same observable content, before and after. */
  ghost predicate Same(d: Disk, e: Disk) { Inv(d) && Inv(e) && Abs(d) == Abs(e) }

  lemma EffectFacts(d: Disk, a: Action)
    requires Inv(d) && Enabled(d, a)
    ensures Inv(Apply(d, a))
    ensures !a.Commit? ==> Same(d, Apply(d, a))
    ensures Settles(a) ==> Recovered(Apply(d, a)) == Recovered(d)
  {
    StepRefines(d, a);
    if Settles(a) { SettlingKeepsGoal(d, a); }
  }

  lemma SettlingEvent(w: World, e: Event, b: Binding)
    requires Inv(w.At(b)) && Allowed(w, e) && (e.at == b ==> Settles(e.action))
    ensures Recovered(Happen(w, e).At(b)) == Recovered(w.At(b))
  {
    if e.at == b { SettlingKeepsGoal(w.At(b), e.action); }
  }

  lemma {:induction false} SettlingRunKeepsGoal(w: World, log: seq<Event>, v: World, b: Binding)
    requires WorldInv(w) && Reaches(w, log, v)
    requires forall k :: 0 <= k < |log| && log[k].at == b ==> Settles(log[k].action)
    ensures Inv(w.At(b)) && Inv(v.At(b)) && Recovered(v.At(b)) == Recovered(w.At(b))
    decreases |log|
  {
    hide Inv, Recovered, WorldInv, Settles, Allowed, Happen;
    RunInvAt(w, [], w, b);
    RunInvAt(w, log, v, b);
    if log != [] {
      var n := |log| - 1;
      var u := Replay(w, log[..n]).value;
      assert forall k :: 0 <= k < n ==> log[..n][k] == log[k];
      SettlingRunKeepsGoal(w, log[..n], u, b);
      SettlingEvent(u, log[n], b);
    }
  }

  // What a recovery loop needs to know of the references it starts from.
  lemma RefsShape(d: Disk)
    requires Inv(d)
    ensures DistinctRefs(d.Idx().refs)
    ensures forall op :: op in d.Idx().refs ==> op in d.journals
    ensures forall op :: op in d.Idx().refs && d.journals[op].SetJournal? ==> d.Idx().refs == [op]
  {
  }

  // Only the first of several references could be undecidable, and then it is the only one.
  lemma LaterIsDecidable(i: Index, d: Disk, k: nat)
    requires Inv(d) && k < |d.Idx().refs|
    ensures d.Idx().refs[k] in d.journals
    ensures k > 0 ==> !Undecidable(i, d.journals[d.Idx().refs[k]])
    ensures k == 0 ==> (Stuck(d) <==> Undecidable(d.Idx(), d.journals[d.Idx().refs[0]]))
  {
    hide Inv, Fits;
    RefsShape(d);
    assert d.journals[d.Idx().refs[k]].SetJournal? ==> d.Idx().refs == [d.Idx().refs[k]];
    assert d.Idx().refs[0] in d.Idx().refs;
  }

  lemma DropFirst(refs: seq<Token>, k: nat)
    requires DistinctRefs(refs) && k < |refs|
    ensures WithoutRef(refs[k..], refs[k]) == refs[k + 1..]
    ensures refs[k] !in refs[k + 1..]
  {
    var rest := refs[k + 1..];
    assert refs[k..] == [refs[k]] + rest;
    WithoutFirst(refs[k], rest);
  }

  lemma {:induction false} WithoutFirst(op: Token, rest: seq<Token>)
    requires op !in rest
    ensures WithoutRef([op] + rest, op) == rest
    decreases |rest|
  {
    if rest != [] {
      var n := |rest| - 1;
      assert ([op] + rest)[..|rest|] == [op] + rest[..n];
      WithoutFirst(op, rest[..n]);
    }
  }

  lemma LastRef(op: Token)
    ensures WithoutRef([op], op) == []
  {
    WithoutFirst(op, []);
  }

  // A journal that is still `prepared` has not been committed.
  lemma NotYetCommitted(d: Disk, op: Token)
    requires Inv(d) && Linked(d, op) && d.journals[op].SetJournal? && d.journals[op].phase == Prepared
    ensures !Committed(d.Idx(), d.journals[op])
  {
    assert Fits(d.Idx(), d.journals[op]);
  }

  /** The state just before the commit write of a `set`, from a quiet scope. */
  function SetReady(d: Disk, j: Journal, value: Secret): Disk {
    Begun(d, j).(vault := d.vault[j.record.Account() := value], journals := map[j.op := j.At(CredentialWritten)])
  }

  lemma ReadyToCommit(d: Disk, j: Journal, value: Secret)
    requires Quiet(d) && j.SetJournal? && Inv(SetReady(d, j, value))
    requires !Committed(SetReady(d, j, value).Idx(), j)
    ensures var e := SetReady(d, j, value);
      && Enabled(e, Commit(j.op))
      && CommitView(e, j.op) == PutView(Abs(e), j.record, value)
      && CommitIndex(e.Idx(), e.journals[j.op]) == CommitIndex(e.Idx(), j)
      && Committed(CommitIndex(e.Idx(), j), j)
      && CommitIndex(e.Idx(), j) == e.Idx().(
           revision := e.Idx().revision + 1,
           records := WithoutIds(e.Idx().records, Gone(j)) + [j.record],
           tombstones := WithoutTombstone(e.Idx().tombstones, j.record.id))
  {
    hide Inv;
  }

  /** The whole state a completed `set` leaves behind, from a quiet scope. */
  function SetDone(d: Disk, j: Journal, value: Secret): Disk
    requires j.SetJournal?
  {
    var i := d.Idx();
    Disk(
      Some(i.(revision := i.revision + 3,
              records := WithoutIds(i.records, Gone(j)) + [j.record],
              tombstones := WithoutTombstone(i.tombstones, j.record.id))),
      map[],
      d.vault[j.record.Account() := value] - (if j.prior.Some? then {j.prior.value.Account()} else {}),
      d.minted + MintedBy(j))
  }

  /** The state just after the commit write of a `set`. */
  function SetCommitted(d: Disk, j: Journal, value: Secret): Disk {
    var e := SetReady(d, j, value);
    e.(index := Some(CommitIndex(e.Idx(), j)))
  }

  /** The state once a committed `set` has cleaned up after itself. */
  function SetCleaned(d: Disk, j: Journal): Disk
    requires j.SetJournal?
  {
    d.(index := Some(d.Idx().(revision := d.Idx().revision + 1, refs := [])), journals := map[],
       vault := d.vault - (if j.prior.Some? then {j.prior.value.Account()} else {}))
  }

  lemma SetInTwo(d: Disk, j: Journal, value: Secret)
    requires Quiet(d) && j.SetJournal?
    ensures var e := SetCommitted(d, j, value);
      && e.Idx().refs == [j.op] && e.journals == map[j.op := j.At(CredentialWritten)]
      && SetCleaned(e, j) == SetDone(d, j, value)
  {
    hide WithoutIds, WithoutTombstone;
  }

  lemma RegistryIsDistinct(d: Disk)
    requires Inv(d)
    ensures DistinctEntries(d.Idx().registry)
  {
  }

  /** Every pending operation is a `remove` whose tombstone is in the index. */
  ghost predicate AllTombstoned(d: Disk) {
    forall o :: o in d.Idx().refs ==>
      o in d.journals && d.journals[o].RemoveJournal? && Committed(d.Idx(), d.journals[o])
  }

  /** The state just after the commit write of a `remove`. */
  function RemoveCommitted(d: Disk, j: Journal): Disk {
    var e := Begun(d, j);
    e.(index := Some(CommitIndex(e.Idx(), j)))
  }

  /** The whole state a completed `remove` leaves behind. */
  function RemoveDone(d: Disk, j: Journal): Disk
    requires j.RemoveJournal?
  {
    var i := d.Idx();
    Disk(
      Some(i.(revision := i.revision + 3,
              records := WithoutIds(i.records, {j.record.id}),
              tombstones := i.tombstones + [j.tombstone])),
      d.journals,
      d.vault - {j.record.Account()},
      d.minted + MintedBy(j))
  }

  lemma ReadyToTombstone(d: Disk, j: Journal)
    requires j.RemoveJournal? && Enabled(d, Stage(j)) && Inv(d) && Inv(Begun(d, j))
    requires j.tombstone.committedRevision == d.Idx().revision + 2
    ensures var e := Begun(d, j);
      && Enabled(e, Commit(j.op))
      && e.journals[j.op] == j
      && CommitView(e, j.op) == DeleteView(Abs(e), j.record, j.tombstone)
      && Committed(CommitIndex(e.Idx(), j), j)
      && CommitIndex(e.Idx(), j) == e.Idx().(
           revision := e.Idx().revision + 1,
           records := WithoutIds(e.Idx().records, {j.record.id}),
           tombstones := e.Idx().tombstones + [j.tombstone])
  {
    assert IndexOk(d.Idx());
    assert j.record in d.Idx().records;
    assert forall t :: t in d.Idx().tombstones ==> t.id != j.record.id;
  }

  lemma StillTombstoned(d: Disk, j: Journal)
    requires AllTombstoned(d) && j.RemoveJournal? && j.op !in d.journals
    ensures AllTombstoned(RemoveCommitted(d, j))
  {
    var e := RemoveCommitted(d, j);
    assert e.Idx().refs == d.Idx().refs + [j.op];
    assert j.tombstone in e.Idx().tombstones;
  }

  predicate IsLast(refs: seq<Token>, op: Token) { refs != [] && refs[|refs| - 1] == op }

  /** A `remove` has been committed, but deleting its credential failed. */
  ghost predicate ErasePending(d: Disk, e: Disk, j: Journal) {
    && e.index == d.index
    && e.journals - {j.op} == d.journals - {j.op}
    && j.op in e.journals && e.journals[j.op] == j.At(CredentialCleanupPending)
  }

  /** The state once a committed `remove` has cleaned up after itself. */
  function EraseDone(d: Disk, j: Journal): Disk {
    var i := d.Idx();
    d.(index := Some(i.(revision := i.revision + 1, refs := if i.refs == [] then [] else i.refs[..|i.refs| - 1])),
       journals := d.journals - {j.op},
       vault := d.vault - {j.record.Account()})
  }

  lemma LastRefGone(d: Disk, op: Token)
    requires Inv(d) && IsLast(d.Idx().refs, op)
    ensures WithoutRef(d.Idx().refs, op) == d.Idx().refs[..|d.Idx().refs| - 1] && d.Idx().refs != []
  {
    hide VaultOk, TokensOk, RefsOk;
    var refs := d.Idx().refs;
    assert refs == refs[..|refs| - 1] + [op];
    assert op !in refs[..|refs| - 1];
  }

  lemma RemoveInTwo(d: Disk, j: Journal)
    requires j.RemoveJournal? && j.op !in d.journals
    ensures EraseDone(RemoveCommitted(d, j), j) == RemoveDone(d, j)
  {
    hide WithoutIds, MintedBy, Gone;
    GoneByRemove(j);
    var e := RemoveCommitted(d, j);
    assert e.Idx().refs == d.Idx().refs + [j.op];
    assert e.Idx().refs[..|e.Idx().refs| - 1] == d.Idx().refs;
    assert d.journals[j.op := j] - {j.op} == d.journals;
  }

  lemma GoneByRemove(j: Journal)
    requires j.RemoveJournal?
    ensures Gone(j) == {j.record.id}
  {
  }

  // Whether all pending operations are tombstoned removes does not depend on vault or phases.
  lemma TombstonedKept(d: Disk, e: Disk, j: Journal)
    requires AllTombstoned(d) && ErasePending(d, e, j) && j.op in d.journals && d.journals[j.op] == j
    ensures AllTombstoned(e)
  {
    forall o | o in e.Idx().refs
      ensures o in e.journals && e.journals[o].RemoveJournal? && Committed(e.Idx(), e.journals[o])
    {
      if o != j.op {
        assert o in d.journals - {j.op};
        assert (d.journals - {j.op})[o] == (e.journals - {j.op})[o];
      }
    }
  }

  // A token not drawn before names nothing on this disk.
  lemma FreshToken(d: Disk, t: Token)
    requires Inv(d) && forall m :: m in d.minted ==> m < t
    ensures t !in d.minted && t !in d.journals && t !in d.Idx().refs
  {
  }

  /** The commit of a `set` of `record`, up to its generation, is what took `d` to `e`. */
  ghost predicate Replaces(d: Disk, e: Disk, record: Record, j: Journal, value: Secret)
    requires Inv(d) && Inv(e)
  {
    && j.SetJournal?
    && j.record == record.(generation := j.record.generation)
    && j.record.generation !in d.minted
    && Abs(e) == PutView(Abs(d), j.record, value)
  }

  // A recovery before the operation does not change what the operation replaced.
  lemma ReplacesFromBefore(d: Disk, e: Disk, record: Record, j: Journal, value: Secret)
    requires Inv(d) && Inv(e) && Inv(Recovered(d)) && Abs(Recovered(d)) == Abs(d)
    requires Replaces(Recovered(d), e, record, j, value)
    ensures Replaces(d, e, record, j, value)
  {
    hide Inv, Abs, PutView;
  }

  /** The commit of a `remove` of `record` is what took `d` to `e`. */
  ghost predicate Deletes(d: Disk, e: Disk, record: Record, j: Journal)
    requires Inv(d) && Inv(e)
  {
    && j.RemoveJournal? && j.record == record && j.tombstone.id == record.id
    && Abs(e) == DeleteView(Abs(d), record, j.tombstone)
  }

  lemma DeletesFromBefore(d: Disk, e: Disk, record: Record, j: Journal)
    requires Inv(d) && Inv(e) && Inv(Recovered(d)) && Abs(Recovered(d)) == Abs(d)
    requires Deletes(Recovered(d), e, record, j)
    ensures Deletes(d, e, record, j)
  {
    hide Inv, Abs, DeleteView;
  }

  lemma SecretOf(d: Disk, r: Record)
    requires Inv(d) && r in d.Idx().records
    ensures r.Account() in d.vault && (r, d.vault[r.Account()]) in Abs(d).active
  {
  }

  lemma NothingStuck(d: Disk)
    ensures d.Idx().refs == [] ==> !Stuck(d)
  {
  }

  // ---- crash atomicity over runs ----------------------------------------------------------

  /** Index and credential store agree at every instant of every run: each active record has its
      credential, every credential is active or named by a referenced journal as the one to clean
      up, and with nothing referenced the two sets are equal. */
  lemma RunAgreement(user: Binding, log: seq<Event>, w: World, b: Binding)
    requires Reaches(World(user, map[]), log, w)
    ensures var d := w.At(b);
      && (forall r :: r in d.Idx().records ==> r.Account() in d.vault)
      && (forall a :: a in d.vault ==> Active(d.Idx(), a) != Owed(d, a))
      && (d.Idx().refs == [] ==> forall a :: a in d.vault <==> Active(d.Idx(), a))
  {
    hide IndexOk, RefsOk, TokensOk, Reaches;
    RunInvAt(World(user, map[]), log, w, b);
    var d := w.At(b);
    forall r | r in d.Idx().records ensures Active(d.Idx(), r.Account()) { }
  }

  /** Where the last commit write of a log on the scope is, or the length of the log. */
  ghost function LastCommit(log: seq<Event>, b: Binding): (k: nat)
    ensures k <= |log| && NoCommit(log[if k < |log| then k + 1 else 0..], b)
    ensures k < |log| ==> log[k].at == b && log[k].action.Commit?
  {
    if log == [] then 0
    else
      var n := |log| - 1;
      if log[n].at == b && log[n].action.Commit? then n
      else
        var k := LastCommit(log[..n], b);
        if k < n then k else |log|
  }

  /** A run that goes through an event is a run up to it, the event, and a run after it. */
  lemma RunThrough(w: World, log: seq<Event>, k: nat, v: World) returns (m: World)
    requires Reaches(w, log, v) && k < |log|
    ensures Reaches(w, log[..k], m) && Allowed(m, log[k]) && Reaches(Happen(m, log[k]), log[k + 1..], v)
  {
    hide Allowed, Happen;
    assert log == log[..k] + log[k..];
    ReplayInTwo(w, log[..k], log[k..], v);
    m :| Reaches(w, log[..k], m) && Reaches(m, log[k..], v);
    assert log[k..] == [log[k]] + log[k + 1..];
    ReplayInTwo(m, [log[k]], log[k + 1..], v);
    var u :| Reaches(m, [log[k]], u) && Reaches(u, log[k + 1..], v);
    assert [log[k]][..0] == [] && Replay(m, []) == Some(m);
  }

  /** Crash atomicity over every run: end it anywhere, with whatever operations interrupted and
      whatever recoveries failed or crashed in it, and let one recovery complete. Without a commit
      write in the run the scope holds what it held before the run; otherwise exactly what the last
      commit write decided, in the state `m` it came in. Either way its credentials are those of its
      records and nothing is pending. */
  lemma CrashAtomicity(w: World, log: seq<Event>, v: World, b: Binding) returns (m: World)
    requires WorldInv(w) && Reaches(w, log, v)
    ensures Inv(w.At(b)) && Inv(v.At(b)) && Inv(Recovered(v.At(b))) && Quiet(Recovered(v.At(b)))
    ensures forall a :: a in Recovered(v.At(b)).vault <==> Active(v.At(b).Idx(), a)
    ensures var k := LastCommit(log, b);
      if k == |log| then Abs(Recovered(v.At(b))) == Abs(w.At(b))
      else
        && Reaches(w, log[..k], m) && Inv(m.At(b)) && Enabled(m.At(b), log[k].action)
        && Abs(Recovered(v.At(b))) == CommitView(m.At(b), log[k].action.op)
        && (NoCommit(log[..k], b) ==> Abs(m.At(b)) == Abs(w.At(b)))
  {
    hide Inv, Abs, WorldInv, CommitView, Enabled, Apply, NoCommit;
    m := w;
    var k := LastCommit(log, b);
    RunInvAt(w, [], w, b);
    RunInvAt(w, log, v, b);
    RecoveredAgrees(v.At(b));
    QuietIsRecovered(Recovered(v.At(b)));
    if k == |log| {
      assert log[0..] == log;
      NoCommitNoChange(w, log, v, b);
    } else {
      m := RunThrough(w, log, k, v);
      DecidedByCommit(w, log[..k], m, log[k], log[k + 1..], v, b);
      if NoCommit(log[..k], b) { NoCommitNoChange(w, log[..k], m, b); }
    }
  }

  lemma DecidedByCommit(w: World, first: seq<Event>, m: World, e: Event, second: seq<Event>, v: World, b: Binding)
    requires WorldInv(w) && Reaches(w, first, m) && Allowed(m, e) && e.at == b && e.action.Commit?
    requires Reaches(Happen(m, e), second, v) && NoCommit(second, b)
    ensures Inv(m.At(b)) && Inv(v.At(b)) && Enabled(m.At(b), e.action) && Abs(v.At(b)) == CommitView(m.At(b), e.action.op)
  {
    hide Inv, Abs, WorldInv, Reaches, NoCommit, CommitView, Enabled, Apply;
    RunKeepsInv(w, first, m);
    RunInvAt(w, first, m, b);
    StepRefines(m.At(b), e.action);
    EventKeepsInv(m, e);
    NoCommitNoChange(Happen(m, e), second, v, b);
  }
}
