/** The write-ahead protocol of one scope as a transition system over its durable state: every
    atomic file write and every credential call is one action, and a crash may happen between
    any two of them. Guards speak only of what is durable. */
module SettingsProtocol {
  import opened Wrappers
  import opened SettingsModel

  datatype Action =
    | Stage(journal: Journal)                    // write a fresh `prepared` journal file
    | Link(op: Token)                            // commit its reference into the index
    | Put(op: Token, value: Secret)              // write the new credential
    | Mark(op: Token, phase: Phase)              // rewrite the journal with a later phase
    | Commit(op: Token)                          // the single index write that decides
    | Drop(op: Token)                            // delete the credential the operation made stale
    | Unlink(op: Token)                          // take the reference out of the index
    | Sweep(op: Token)                           // delete an unreferenced journal file
    | Enroll(registry: seq<Entry>, bumps: nat)   // rewrite the workspace registry

  /** The commit write of this operation is in the index. */
  predicate Committed(i: Index, j: Journal) {
    match j
    case SetJournal(_, _, record, _) => record in i.records
    case RemoveJournal(_, _, _, tombstone) => tombstone in i.tombstones
  }

  /** Accounts this operation leaves behind: the replaced or removed one after the commit,
      the new one before it. */
  function Stale(i: Index, j: Journal): set<Account> {
    match j
    case SetJournal(_, _, record, prior) =>
      if Committed(i, j) then
        if prior.Some? then {prior.value.Account()} else {}
      else {record.Account()}
    case RemoveJournal(_, _, record, _) =>
      if Committed(i, j) then {record.Account()} else {}
  }

  function Gone(j: Journal): set<SettingId> {
    if j.SetJournal? && j.prior.Some? then {j.record.id, j.prior.value.id} else {j.record.id}
  }

  function CommitIndex(i: Index, j: Journal): Index {
    match j
    case SetJournal(_, _, record, _) =>
      i.(revision := i.revision + 1,
         records := WithoutIds(i.records, Gone(j)) + [record],
         tombstones := WithoutTombstone(i.tombstones, record.id))
    case RemoveJournal(_, _, record, tombstone) =>
      i.(revision := i.revision + 1,
         records := WithoutIds(i.records, Gone(j)),
         tombstones := i.tombstones + [tombstone])
  }

  predicate Linked(d: Disk, op: Token) { op in d.Idx().refs && op in d.journals }

  predicate PhaseOf(isSet: bool, phase: Phase) {
    match phase
    case Prepared => true
    case CredentialWritten => isSet
    case MetadataCommitted => isSet
    case CleanupPending => isSet
    case TombstoneCommitted => !isSet
    case CredentialCleanupPending => !isSet
  }

  /** How the parts of a journal belong together, apart from the shape of its strings. */
  ghost predicate JournalShape(j: Journal) {
    && PhaseOf(j.SetJournal?, j.phase)
    && (match j
        case SetJournal(_, _, record, prior) =>
          prior.Some? ==> record.SameKey(prior.value) && record.binding == prior.value.binding
        case RemoveJournal(_, _, record, tombstone) =>
          && tombstone.id == record.id && tombstone.plugin == record.id.plugin
          && tombstone.package == record.id.package && tombstone.declaration == record.Declared()
          && tombstone.binding == record.binding)
  }

  ghost predicate Enabled(d: Disk, a: Action) {
    var i := d.Idx();
    match a
    case Stage(j) =>
      && j.phase == Prepared && JournalShape(j)
      && j.op !in d.minted && j.op !in d.journals
      && (match j
          case SetJournal(_, _, record, prior) =>
            && record.generation !in d.minted
            && prior == FindKey(i.records, record.id.plugin, record.id.env)
          case RemoveJournal(_, _, record, _) => record in i.records)
    case Link(op) =>
      && op in d.journals && op !in i.refs && d.journals[op].phase == Prepared
      && (match d.journals[op]
          case SetJournal(_, _, record, prior) =>
            i.refs == [] && prior == FindKey(i.records, record.id.plugin, record.id.env)
          case RemoveJournal(_, _, record, tombstone) =>
            && record in i.records
            && forall o :: o in i.refs ==>
                 o in d.journals && d.journals[o].RemoveJournal? && Committed(i, d.journals[o]))
    case Put(op, _) =>
      Linked(d, op) && d.journals[op].SetJournal? && d.journals[op].phase == Prepared
      && !Committed(i, d.journals[op])
    case Mark(op, phase) =>
      && Linked(d, op)
      && (match d.journals[op]
          case SetJournal(_, was, record, _) =>
            || (phase == CredentialWritten && was == Prepared && record.Account() in d.vault)
            || (phase == MetadataCommitted && was == CredentialWritten && Committed(i, d.journals[op]))
            || phase == CleanupPending
          case RemoveJournal(_, _, _, _) =>
            phase != Prepared && PhaseOf(false, phase) && Committed(i, d.journals[op]))
    case Commit(op) =>
      && Linked(d, op) && !Committed(i, d.journals[op])
      && (match d.journals[op]
          case SetJournal(_, phase, record, _) =>
            phase == CredentialWritten && record.Account() in d.vault
          case RemoveJournal(_, phase, _, tombstone) =>
            phase == Prepared && tombstone.committedRevision == i.revision + 1)
    case Drop(op) => Linked(d, op)
    case Unlink(op) => Linked(d, op) && Stale(i, d.journals[op]) !! d.vault.Keys
    case Sweep(op) => op in d.journals && op !in i.refs
    case Enroll(registry, bumps) => bumps > 0 && DistinctEntries(registry)
  }

  function MintedBy(j: Journal): set<Token> {
    if j.SetJournal? then {j.op, j.record.generation} else {j.op, j.tombstone.generation}
  }

  ghost function Apply(d: Disk, a: Action): Disk
    requires Enabled(d, a)
  {
    var i := d.Idx();
    match a
    case Stage(j) => d.(journals := d.journals[j.op := j], minted := d.minted + MintedBy(j))
    case Link(op) => d.(index := Some(i.(revision := i.revision + 1, refs := i.refs + [op])))
    case Put(op, value) => d.(vault := d.vault[d.journals[op].record.Account() := value])
    case Mark(op, phase) => d.(journals := d.journals[op := d.journals[op].At(phase)])
    case Commit(op) => d.(index := Some(CommitIndex(i, d.journals[op])))
    case Drop(op) => d.(vault := d.vault - Stale(i, d.journals[op]))
    case Unlink(op) => d.(index := Some(i.(revision := i.revision + 1, refs := WithoutRef(i.refs, op))))
    case Sweep(op) => d.(journals := d.journals - {op})
    case Enroll(registry, bumps) => d.(index := Some(i.(revision := i.revision + bumps, registry := registry)))
  }

  // ---- the invariant ------------------------------------------------------------------

  ghost predicate Active(i: Index, a: Account) { exists r :: r in i.records && r.Account() == a }

  /** Some referenced journal names this account as the one to clean up. */
  ghost predicate Owed(d: Disk, a: Account) {
    exists op :: Linked(d, op) && a in Stale(d.Idx(), d.journals[op])
  }

  ghost predicate IndexOk(i: Index) {
    && DistinctKeys(i.records)
    && DistinctTombstones(i.tombstones)
    && DistinctRefs(i.refs)
    && DistinctEntries(i.registry)
    && (forall r, t :: r in i.records && t in i.tombstones ==> r.id != t.id)
    && (forall t :: t in i.tombstones ==> t.committedRevision <= i.revision)
  }

  /** A referenced journal fits the index: it is committed, or its pre-state is still there. */
  ghost predicate Fits(i: Index, j: Journal) {
    match j
    case SetJournal(_, phase, record, prior) =>
      if Committed(i, j) then phase != Prepared && i.records[|i.records| - 1] == record
      else phase != MetadataCommitted && prior == FindKey(i.records, record.id.plugin, record.id.env)
    case RemoveJournal(_, phase, record, _) =>
      Committed(i, j) || (record in i.records && phase == Prepared)
  }

  /** At most one `set` is pending, and then alone; otherwise removes of distinct settings. */
  ghost predicate RefsOk(d: Disk) {
    var i := d.Idx();
    && (forall op :: op in i.refs ==> op in d.journals && Fits(i, d.journals[op]))
    && (forall op :: op in i.refs && d.journals[op].SetJournal? ==> i.refs == [op])
    && (forall o, p :: o in i.refs && p in i.refs && o != p
          ==> d.journals[o].record.id != d.journals[p].record.id)
  }

  ghost predicate TokensOk(d: Disk) {
    && (forall r :: r in d.Idx().records ==> r.generation in d.minted)
    && (forall op :: op in d.journals ==>
          && d.journals[op].op == op && op in d.minted
          && d.journals[op].record.generation in d.minted
          && JournalShape(d.journals[op])
          && (d.journals[op].SetJournal? && d.journals[op].prior.Some? ==>
                d.journals[op].prior.value.generation != d.journals[op].record.generation))
  }

  /** Every active record has its credential, and every credential is active or is named by a
      referenced journal as the one to clean up. */
  ghost predicate VaultOk(d: Disk) {
    && (forall r :: r in d.Idx().records ==> r.Account() in d.vault)
    && (forall a :: a in d.vault ==> Active(d.Idx(), a) || Owed(d, a))
    && (forall a :: Owed(d, a) ==> !Active(d.Idx(), a))
  }

  ghost predicate Inv(d: Disk) {
    && IndexOk(d.Idx())
    && (d.index.Some? ==> d.Idx().revision > 0)
    && RefsOk(d)
    && TokensOk(d)
    && VaultOk(d)
  }

  lemma EmptyDiskInv()
    ensures Inv(EMPTY_DISK)
  {
  }

  // A step that leaves the index and the stale accounts alone owes what was owed before.
  lemma OwedKept(d: Disk, e: Disk)
    requires d.Idx() == e.Idx()
    requires forall op :: op in d.Idx().refs ==>
      (op in d.journals <==> op in e.journals)
      && (op in d.journals ==> Stale(d.Idx(), d.journals[op]) == Stale(d.Idx(), e.journals[op]))
    ensures forall a :: Owed(d, a) <==> Owed(e, a)
  {
    forall a ensures Owed(d, a) <==> Owed(e, a) {
      if Owed(d, a) {
        var op :| Linked(d, op) && a in Stale(d.Idx(), d.journals[op]);
        assert Linked(e, op) && a in Stale(e.Idx(), e.journals[op]);
      }
      if Owed(e, a) {
        var op :| Linked(e, op) && a in Stale(e.Idx(), e.journals[op]);
        assert Linked(d, op) && a in Stale(d.Idx(), d.journals[op]);
      }
    }
  }

  lemma PhaseAside(i: Index, j: Journal, phase: Phase)
    ensures Committed(i, j.At(phase)) <==> Committed(i, j)
    ensures Stale(i, j.At(phase)) == Stale(i, j)
  {
  }

  // What a journal owes and whether it fits depend on the records and tombstones alone.
  lemma BookOnly(i: Index, k: Index, j: Journal)
    requires i.records == k.records && i.tombstones == k.tombstones
    ensures Committed(i, j) <==> Committed(k, j)
    ensures Stale(i, j) == Stale(k, j)
    ensures Fits(i, j) <==> Fits(k, j)
  {
  }

  lemma VaultPointwise(d: Disk)
    requires forall a :: Active(d.Idx(), a) ==> a in d.vault
    requires forall a :: a in d.vault ==> Active(d.Idx(), a) || Owed(d, a)
    requires forall a :: Owed(d, a) ==> !Active(d.Idx(), a)
    ensures VaultOk(d)
  {
    forall r | r in d.Idx().records ensures r.Account() in d.vault {
      assert Active(d.Idx(), r.Account());
    }
  }

  lemma StageInv(d: Disk, j: Journal)
    requires Inv(d) && Enabled(d, Stage(j))
    ensures Inv(Apply(d, Stage(j)))
  {
    hide VaultOk, IndexOk, Stale, Fits;
    StageVault(d, j);
  }

  lemma StageVault(d: Disk, j: Journal)
    requires Inv(d) && Enabled(d, Stage(j))
    ensures VaultOk(Apply(d, Stage(j)))
  {
    hide IndexOk, TokensOk, JournalShape, Fits, Stale;
    OwedKept(d, Apply(d, Stage(j)));
  }

  lemma PutInv(d: Disk, op: Token, value: Secret)
    requires Inv(d) && Enabled(d, Put(op, value))
    ensures Inv(Apply(d, Put(op, value)))
  {
    OwedKept(d, Apply(d, Put(op, value)));
    assert Linked(d, op) && d.journals[op].record.Account() in Stale(d.Idx(), d.journals[op]);
  }

  lemma MarkRefs(d: Disk, op: Token, phase: Phase)
    requires RefsOk(d) && Enabled(d, Mark(op, phase))
    ensures RefsOk(Apply(d, Mark(op, phase)))
  {
    PhaseAside(d.Idx(), d.journals[op], phase);
    var e := Apply(d, Mark(op, phase));
    assert Fits(d.Idx(), e.journals[op]);
    assert forall o :: o in d.journals && o != op ==> e.journals[o] == d.journals[o];
  }

  lemma MarkTokens(d: Disk, op: Token, phase: Phase)
    requires TokensOk(d) && Enabled(d, Mark(op, phase))
    ensures TokensOk(Apply(d, Mark(op, phase)))
  {
    var e := Apply(d, Mark(op, phase));
    assert JournalShape(e.journals[op]);
    assert forall o :: o in d.journals && o != op ==> e.journals[o] == d.journals[o];
  }

  lemma MarkInv(d: Disk, op: Token, phase: Phase)
    requires Inv(d) && Enabled(d, Mark(op, phase))
    ensures Inv(Apply(d, Mark(op, phase)))
  {
    var e := Apply(d, Mark(op, phase));
    MarkRefs(d, op, phase);
    MarkTokens(d, op, phase);
    PhaseAside(d.Idx(), d.journals[op], phase);
    OwedKept(d, e);
  }

  lemma DropInv(d: Disk, op: Token)
    requires Inv(d) && Enabled(d, Drop(op))
    ensures Inv(Apply(d, Drop(op)))
  {
    OwedKept(d, Apply(d, Drop(op)));
    assert forall r :: r in d.Idx().records ==> Active(d.Idx(), r.Account());
    assert forall a :: a in Stale(d.Idx(), d.journals[op]) ==> Owed(d, a);
  }

  lemma SweepInv(d: Disk, op: Token)
    requires Inv(d) && Enabled(d, Sweep(op))
    ensures Inv(Apply(d, Sweep(op)))
  {
    OwedKept(d, Apply(d, Sweep(op)));
  }

  lemma LinkFits(d: Disk, op: Token)
    requires Inv(d) && Enabled(d, Link(op))
    ensures Fits(Apply(d, Link(op)).Idx(), d.journals[op])
  {
    hide VaultOk, RefsOk;
  }

  lemma LinkRefs(d: Disk, op: Token)
    requires Inv(d) && Enabled(d, Link(op))
    ensures RefsOk(Apply(d, Link(op)))
  {
    hide VaultOk, TokensOk, IndexOk, Fits;
    var i, e := d.Idx(), Apply(d, Link(op));
    assert forall o :: o in e.Idx().refs <==> o in i.refs || o == op;
    forall o | o in i.refs ensures Fits(e.Idx(), d.journals[o]) {
      BookOnly(i, e.Idx(), d.journals[o]);
    }
    LinkFits(d, op);
    if d.journals[op].RemoveJournal? { LinkIds(d, op); }
  }

  lemma LinkIds(d: Disk, op: Token)
    requires Inv(d) && Enabled(d, Link(op)) && d.journals[op].RemoveJournal?
    ensures forall o :: o in d.Idx().refs ==> o in d.journals && d.journals[o].record.id != d.journals[op].record.id
  {
    hide VaultOk;
  }

  lemma LinkOwed(d: Disk, op: Token, a: Account)
    requires Inv(d) && Enabled(d, Link(op))
    ensures Owed(Apply(d, Link(op)), a) <==> Owed(d, a) || a in Stale(d.Idx(), d.journals[op])
  {
    var e := Apply(d, Link(op));
    forall o | o in d.journals ensures Stale(d.Idx(), d.journals[o]) == Stale(e.Idx(), d.journals[o]) {
      BookOnly(d.Idx(), e.Idx(), d.journals[o]);
    }
    assert forall o :: Linked(e, o) <==> Linked(d, o) || o == op;
  }

  lemma LinkInv(d: Disk, op: Token)
    requires Inv(d) && Enabled(d, Link(op))
    ensures Inv(Apply(d, Link(op)))
  {
    hide RefsOk, Stale, Owed;
    LinkRefs(d, op);
    NewcomerOwes(d, op);
    forall a { LinkOwed(d, op, a); }
  }

  // A freshly linked operation owes no account that is still active.
  lemma NewcomerOwes(d: Disk, op: Token)
    requires Inv(d) && Enabled(d, Link(op))
    ensures forall a :: a in Stale(d.Idx(), d.journals[op]) ==> !Active(d.Idx(), a)
  {
  }

  lemma UnlinkOwed(d: Disk, op: Token, a: Account)
    requires Inv(d) && Enabled(d, Unlink(op))
    ensures Owed(Apply(d, Unlink(op)), a) ==> Owed(d, a)
    ensures Owed(d, a) && a in d.vault ==> Owed(Apply(d, Unlink(op)), a)
  {
    var e := Apply(d, Unlink(op));
    forall o | o in d.journals ensures Stale(d.Idx(), d.journals[o]) == Stale(e.Idx(), d.journals[o]) {
      BookOnly(d.Idx(), e.Idx(), d.journals[o]);
    }
    assert forall o :: Linked(e, o) <==> Linked(d, o) && o != op;
  }

  lemma UnlinkInv(d: Disk, op: Token)
    requires Inv(d) && Enabled(d, Unlink(op))
    ensures Inv(Apply(d, Unlink(op)))
  {
    hide Fits, Stale, Owed, RefsOk;
    UnlinkRefs(d, op);
    forall a { UnlinkOwed(d, op, a); }
  }

  lemma UnlinkRefs(d: Disk, op: Token)
    requires Inv(d) && Enabled(d, Unlink(op))
    ensures RefsOk(Apply(d, Unlink(op)))
  {
    hide VaultOk, TokensOk, Stale;
    var i, e := d.Idx(), Apply(d, Unlink(op));
    forall o | o in e.Idx().refs ensures Fits(e.Idx(), d.journals[o]) {
      assert Fits(i, d.journals[o]);
      BookOnly(i, e.Idx(), d.journals[o]);
    }
  }

  lemma EnrollOwed(d: Disk, registry: seq<Entry>, bumps: nat, a: Account)
    requires Inv(d) && Enabled(d, Enroll(registry, bumps))
    ensures Owed(Apply(d, Enroll(registry, bumps)), a) <==> Owed(d, a)
  {
    var e := Apply(d, Enroll(registry, bumps));
    forall op | op in d.journals ensures Stale(d.Idx(), d.journals[op]) == Stale(e.Idx(), d.journals[op]) {
      BookOnly(d.Idx(), e.Idx(), d.journals[op]);
    }
    assert forall op :: Linked(d, op) <==> Linked(e, op);
  }

  lemma EnrollInv(d: Disk, registry: seq<Entry>, bumps: nat)
    requires Inv(d) && Enabled(d, Enroll(registry, bumps))
    ensures Inv(Apply(d, Enroll(registry, bumps)))
  {
    var i, e := d.Idx(), Apply(d, Enroll(registry, bumps));
    forall op | op in i.refs ensures Fits(e.Idx(), d.journals[op]) {
      BookOnly(i, e.Idx(), d.journals[op]);
    }
    forall a { EnrollOwed(d, registry, bumps, a); }
  }

  // ---- the commit write ---------------------------------------------------------------

  // Before its commit, the records a `set` is about to replace are exactly its prior record.
  lemma ReplacedIsPrior(i: Index, j: Journal, r: Record)
    requires DistinctKeys(i.records) && r in i.records
    requires j.SetJournal? && j.prior == FindKey(i.records, j.record.id.plugin, j.record.id.env)
    ensures r.id in Gone(j) <==> r.SameKey(j.record)
    ensures r.SameKey(j.record) ==> j.prior == Some(r)
  {
    if r.SameKey(j.record) {
      KeyIdentifiesRecord(i.records, r, j.prior.value);
    }
  }

  lemma CommitSetIndex(i: Index, j: Journal)
    requires IndexOk(i) && j.SetJournal?
    requires j.prior == FindKey(i.records, j.record.id.plugin, j.record.id.env)
    ensures IndexOk(CommitIndex(i, j))
  {
    var kept := WithoutIds(i.records, Gone(j));
    forall r | r in kept ensures !r.SameKey(j.record) {
      ReplacedIsPrior(i, j, r);
    }
    assert forall k :: 0 <= k < |kept| ==> kept[k] in kept;
  }

  lemma CommitRemoveIndex(i: Index, j: Journal)
    requires IndexOk(i) && j.RemoveJournal? && j.record in i.records
    requires j.tombstone.id == j.record.id && j.tombstone.committedRevision <= i.revision + 1
    ensures IndexOk(CommitIndex(i, j))
  {
    assert forall k :: 0 <= k < |i.tombstones| ==> i.tombstones[k] in i.tombstones;
  }

  lemma CommitSetRefs(d: Disk, op: Token)
    requires Inv(d) && Enabled(d, Commit(op)) && d.journals[op].SetJournal?
    ensures d.Idx().refs == [op] && Committed(Apply(d, Commit(op)).Idx(), d.journals[op])
    ensures RefsOk(Apply(d, Commit(op))) && TokensOk(Apply(d, Commit(op)))
  {
    var i, e := d.Idx(), Apply(d, Commit(op));
    var j := d.journals[op];
    assert i.refs == [op] && e.Idx().refs == [op];
    assert Fits(e.Idx(), j);
  }

  lemma CommitSetOwed(d: Disk, op: Token, a: Account)
    requires Inv(d) && Enabled(d, Commit(op)) && d.journals[op].SetJournal?
    ensures Owed(d, a) <==> a == d.journals[op].record.Account()
    ensures Owed(Apply(d, Commit(op)), a)
      <==> d.journals[op].prior.Some? && a == d.journals[op].prior.value.Account()
  {
    var e := Apply(d, Commit(op));
    CommitSetRefs(d, op);
    assert Linked(d, op) && Linked(e, op);
    assert forall o :: Linked(d, o) || Linked(e, o) ==> o == op;
  }

  lemma CommitSetActive(d: Disk, op: Token, a: Account)
    requires Inv(d) && Enabled(d, Commit(op)) && d.journals[op].SetJournal?
    ensures var j := d.journals[op];
      Active(Apply(d, Commit(op)).Idx(), a)
      <==> a == j.record.Account() || (Active(d.Idx(), a) && !(j.prior.Some? && a == j.prior.value.Account()))
  {
    var i, e := d.Idx(), Apply(d, Commit(op));
    var j := d.journals[op];
    assert Fits(i, j);
    assert j.record in e.Idx().records;
    if Active(i, a) {
      var r :| r in i.records && r.Account() == a;
      ReplacedIsPrior(i, j, r);
      assert j.prior == Some(r) || r in e.Idx().records;
    }
    if Active(e.Idx(), a) {
      var r :| r in e.Idx().records && r.Account() == a;
      if r != j.record {
        assert r in i.records && r.id !in Gone(j);
      }
    }
  }

  lemma CommitSetAccount(d: Disk, op: Token, a: Account)
    requires Inv(d) && Enabled(d, Commit(op)) && d.journals[op].SetJournal?
    ensures var e := Apply(d, Commit(op));
      && (Active(e.Idx(), a) ==> a in e.vault)
      && (a in e.vault ==> Active(e.Idx(), a) || Owed(e, a))
      && (Owed(e, a) ==> !Active(e.Idx(), a))
  {
    CommitSetOwed(d, op, a);
    CommitSetActive(d, op, a);
    var j := d.journals[op];
    assert a == j.record.Account() ==> a in d.vault;
    assert a in d.vault ==> Active(d.Idx(), a) || Owed(d, a);
    assert j.prior.Some? ==> j.prior.value.generation != j.record.generation;
    if Active(d.Idx(), a) {
      var r :| r in d.Idx().records && r.Account() == a;
    }
  }

  lemma CommitSetInv(d: Disk, op: Token)
    requires Inv(d) && Enabled(d, Commit(op)) && d.journals[op].SetJournal?
    ensures Inv(Apply(d, Commit(op)))
  {
    assert Fits(d.Idx(), d.journals[op]);
    CommitSetIndex(d.Idx(), d.journals[op]);
    CommitSetRefs(d, op);
    forall a { CommitSetAccount(d, op, a); }
    VaultPointwise(Apply(d, Commit(op)));
  }

  // Of the referenced removes, the commit write changes only its own.
  lemma CommitRemoveOther(d: Disk, op: Token, o: Token)
    requires Inv(d) && Enabled(d, Commit(op)) && d.journals[op].RemoveJournal?
    requires o in d.Idx().refs
    ensures d.journals[o].RemoveJournal? && Fits(Apply(d, Commit(op)).Idx(), d.journals[o])
    ensures Committed(Apply(d, Commit(op)).Idx(), d.journals[o]) <==> o == op || Committed(d.Idx(), d.journals[o])
  {
    var j, k := d.journals[op], d.journals[o];
    assert Fits(d.Idx(), k) && Fits(d.Idx(), j);
    assert k.SetJournal? ==> d.Idx().refs == [o];
    assert o != op ==> k.record.id != j.record.id;
  }

  lemma CommitRemoveRefs(d: Disk, op: Token)
    requires Inv(d) && Enabled(d, Commit(op)) && d.journals[op].RemoveJournal?
    ensures RefsOk(Apply(d, Commit(op))) && TokensOk(Apply(d, Commit(op)))
  {
    forall o | o in d.Idx().refs
      ensures d.journals[o].RemoveJournal? && Fits(Apply(d, Commit(op)).Idx(), d.journals[o])
    {
      CommitRemoveOther(d, op, o);
    }
  }

  lemma CommitRemoveOwed(d: Disk, op: Token, a: Account)
    requires Inv(d) && Enabled(d, Commit(op)) && d.journals[op].RemoveJournal?
    ensures Owed(Apply(d, Commit(op)), a) <==> Owed(d, a) || a == d.journals[op].record.Account()
  {
    hide TokensOk, IndexOk, VaultOk;
    var i, e := d.Idx(), Apply(d, Commit(op));
    forall o | o in i.refs { CommitRemoveOther(d, op, o); }
    assert Linked(e, op);
    assert forall o :: Linked(d, o) <==> Linked(e, o);
    assert forall o :: Linked(d, o) && o != op ==> Stale(i, d.journals[o]) == Stale(e.Idx(), d.journals[o]);
    assert Stale(i, d.journals[op]) == {};
  }

  lemma CommitRemoveActive(d: Disk, op: Token, a: Account)
    requires Inv(d) && Enabled(d, Commit(op)) && d.journals[op].RemoveJournal?
    ensures Active(Apply(d, Commit(op)).Idx(), a) <==> Active(d.Idx(), a) && a != d.journals[op].record.Account()
  {
    var i, e := d.Idx(), Apply(d, Commit(op));
    var j := d.journals[op];
    assert Fits(i, j);
    if Active(i, a) {
      var r :| r in i.records && r.Account() == a;
      if r.id == j.record.id { KeyIdentifiesRecord(i.records, r, j.record); }
      assert r == j.record || r in e.Idx().records;
    }
  }

  lemma CommitRemoveAccount(d: Disk, op: Token, a: Account)
    requires Inv(d) && Enabled(d, Commit(op)) && d.journals[op].RemoveJournal?
    ensures var e := Apply(d, Commit(op));
      && (Active(e.Idx(), a) ==> a in e.vault)
      && (a in e.vault ==> Active(e.Idx(), a) || Owed(e, a))
      && (Owed(e, a) ==> !Active(e.Idx(), a))
  {
    CommitRemoveOwed(d, op, a);
    CommitRemoveActive(d, op, a);
    if Active(d.Idx(), a) {
      var r :| r in d.Idx().records && r.Account() == a;
      assert a in d.vault;
    }
  }

  lemma CommitRemoveInv(d: Disk, op: Token)
    requires Inv(d) && Enabled(d, Commit(op)) && d.journals[op].RemoveJournal?
    ensures Inv(Apply(d, Commit(op)))
  {
    assert Fits(d.Idx(), d.journals[op]);
    CommitRemoveIndex(d.Idx(), d.journals[op]);
    CommitRemoveRefs(d, op);
    forall a { CommitRemoveAccount(d, op, a); }
    VaultPointwise(Apply(d, Commit(op)));
  }

  /** Every durable effect keeps the invariant, whichever comes next and wherever a crash falls. */
  lemma StepKeepsInv(d: Disk, a: Action)
    requires Inv(d) && Enabled(d, a)
    ensures Inv(Apply(d, a))
  {
    match a
    case Stage(j) => StageInv(d, j);
    case Link(op) => LinkInv(d, op);
    case Put(op, value) => PutInv(d, op, value);
    case Mark(op, phase) => MarkInv(d, op, phase);
    case Commit(op) =>
      if d.journals[op].SetJournal? { CommitSetInv(d, op); } else { CommitRemoveInv(d, op); }
    case Drop(op) => DropInv(d, op);
    case Unlink(op) => UnlinkInv(d, op);
    case Sweep(op) => SweepInv(d, op);
    case Enroll(registry, bumps) => EnrollInv(d, registry, bumps);
  }
}
