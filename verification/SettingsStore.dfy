/** The settings store of one home: the scopes' durable state and the methods that change it.
    A file write or a credential call may fail or be the last thing the process does, whether or
    not it took effect; a method then gives up at once, as the source does by raising. */
module SettingsStore {
  import opened Wrappers
  import opened SettingsModel
  import opened SettingsProtocol
  import opened SettingsHistory
  import opened SettingsAtomicity
  import opened SettingsRecovery

  datatype Error =
    | BackendUnavailable
    | StorageUnavailable
    | CleanupPendingError
    | RevisionConflict
    | RecordNotFound
    | DeclarationStale
    | DeclarationInvalid
    | UninstallConflict

  datatype Result<+T> = Ok(value: T) | Err(error: Error)


  /** The declaration a mutation names, after `_validate_mutation_identity`. */
  datatype Request = Request(
    plugin: string, package: string, env: string, name: string, description: string, sensitive: bool)
  {
    function Id(): SettingId { SettingId(plugin, package, env) }

    function AsRecord(b: Binding, generation: Token): Record {
      Record(Id(), b, name, description, sensitive, generation)
    }
  }

  /** The active record this `set` would replace has the same package but another declaration. */
  predicate StaleDeclaration(i: Index, request: Request) {
    var prior := FindKey(i.records, request.plugin, request.env);
    prior.Some? && prior.value.id.package == request.package && prior.value.sensitive != request.sensitive
  }

  /** `_find_exact_record`: same plugin, package, environment variable and declaration. */
  function FindExact(rs: seq<Record>, request: Request): (found: Option<Record>)
    ensures found.Some? ==> found.value in rs && found.value.id == request.Id()
  {
    if rs == [] then None
    else if rs[0].id == request.Id() && rs[0].sensitive == request.sensitive then Some(rs[0])
    else FindExact(rs[1..], request)
  }

  /** The entry of `b` has this state and revision; the entries of other scopes are as before. */
  ghost predicate OnRecord(before: seq<Entry>, after: seq<Entry>, b: Binding, state: EntryState, revision: nat) {
    && FindEntry(after, b) == Some(Entry(b, state, revision))
    && forall c :: c != b ==> FindEntry(after, c) == FindEntry(before, c)
  }

  lemma {:induction false} ReplaceFinds(es: seq<Entry>, entry: Entry, c: Binding)
    ensures FindEntry(ReplaceEntry(es, entry), c)
      == if c == entry.binding && FindEntry(es, c).Some? then Some(entry) else FindEntry(es, c)
  {
    if es != [] {
      assert ReplaceEntry(es, entry)[1..] == ReplaceEntry(es[1..], entry);
      ReplaceFinds(es[1..], entry, c);
    }
  }

  lemma {:induction false} FindAppended(es: seq<Entry>, entry: Entry, c: Binding)
    ensures FindEntry(es + [entry], c)
      == if FindEntry(es, c).Some? || c != entry.binding then FindEntry(es, c) else Some(entry)
  {
    if es != [] {
      assert (es + [entry])[1..] == es[1..] + [entry];
      FindAppended(es[1..], entry, c);
    }
  }

  lemma UpsertFinds(es: seq<Entry>, entry: Entry)
    ensures OnRecord(es, UpsertEntry(es, entry), entry.binding, entry.state, entry.registeredRevision)
  {
    hide FindEntry, ReplaceEntry;
    forall c
      ensures FindEntry(UpsertEntry(es, entry), c) == if c == entry.binding then Some(entry) else FindEntry(es, c)
    {
      ReplaceFinds(es, entry, c);
      FindAppended(ReplaceEntry(es, entry), entry, c);
    }
  }

  lemma CoveredIsFound(es: seq<Entry>, b: Binding)
    requires Covers(es, b)
    ensures FindEntry(es, b).Some?
  {
  }

  lemma StateIsFound(d: Disk, b: Binding, state: EntryState)
    requires Inv(d)
    ensures var found := FindEntry(d.Idx().registry, b);
      HasState(d.Idx().registry, b, state) <==> found.Some? && found.value.state == state
  {
    hide Inv;
    RegistryIsDistinct(d);
  }

  lemma FoundCovers(es: seq<Entry>, b: Binding)
    ensures FindEntry(es, b).Some? && FindEntry(es, b).value.state != Removed ==> Covers(es, b)
  {
  }

  /** What `set` checks: the fields, both scopes recoverable, the revision, the declaration. */
  ghost predicate MaySet(d: Disk, user: Disk, b: Binding, request: Request, expected: nat) {
    && RecordFields(request.AsRecord(b, 0)) && !Stuck(d) && !Stuck(user)
    && Recovered(d).Idx().revision == expected
    && !StaleDeclaration(Recovered(d).Idx(), request)
  }

  /** What `remove` checks: the fields, the scope recoverable, the revision, the exact record. */
  ghost predicate MayRemove(d: Disk, b: Binding, request: Request, expected: nat) {
    && RecordFields(request.AsRecord(b, 0)) && !Stuck(d)
    && Recovered(d).Idx().revision == expected
    && FindExact(d.Idx().records, request).Some?
  }

  /** The secret carried over was that of a record of the old binding. That record is replaced if
      the new one is of the same plugin, and otherwise stays beside it. */
  ghost predicate CarriesOver(d: Disk, e: Disk, was: Request, now: Request, j: Journal, secret: Secret)
    requires Inv(d) && Inv(e)
  {
    && AgreeOn(was, now)
    && exists r :: (r, secret) in Abs(d).active && Carried(r, was, now)
         && (r.SameKey(j.record) <==> was.plugin == now.plugin)
         && (was.plugin != now.plugin ==> (r, secret) in Abs(e).active)
  }

  lemma CarriedByReplacing(d: Disk, e: Disk, b: Binding, was: Request, now: Request, r: Record, j: Journal, secret: Secret)
    requires Inv(d) && Inv(e) && Replaces(d, e, now.AsRecord(b, 0), j, secret)
    requires r in d.Idx().records && r.Account() in d.vault && d.vault[r.Account()] == secret
    requires Carried(r, was, now) && AgreeOn(was, now)
    ensures CarriesOver(d, e, was, now, j, secret)
  {
    hide IndexOk, RefsOk, TokensOk;
    SecretOf(d, r);
    assert (r, secret) in Abs(d).active;
  }

  // A recovery before the rebinding does not change what is carried over.
  lemma CarriedOver(d: Disk, e: Disk, f: Disk, b: Binding, was: Request, now: Request, r: Record, j: Journal, secret: Secret)
    requires Inv(d) && Inv(e) && Inv(f) && e == Recovered(d) && Abs(e) == Abs(d)
    requires Replaces(e, f, now.AsRecord(b, 0), j, secret)
    requires r in e.Idx().records && r.Account() in e.vault && e.vault[r.Account()] == secret
    requires FindKey(e.Idx().records, was.plugin, was.env) == Some(r) && r.id.package != now.package && AgreeOn(was, now)
    ensures Replaces(d, f, now.AsRecord(b, 0), j, secret) && CarriesOver(d, f, was, now, j, secret)
  {
    hide Inv, Abs, PutView, Replaces, Recovered;
    ReplacesFromBefore(d, f, now.AsRecord(b, 0), j, secret);
    CarriedByReplacing(e, f, b, was, now, r, j, secret);
  }

  lemma RecordsAreDistinct(d: Disk)
    requires Inv(d)
    ensures DistinctKeys(d.Idx().records)
  {
  }

  lemma NothingCarried(rs: seq<Record>, was: Request, now: Request)
    requires DistinctKeys(rs)
    ensures var found := FindKey(rs, was.plugin, was.env);
      found.None? || found.value.id.package == now.package ==> forall r :: r in rs ==> !Carried(r, was, now)
  {
    forall r | r in rs && Carried(r, was, now) ensures FindKey(rs, was.plugin, was.env) == Some(r) {
      KeyIdentifiesRecord(rs, r, FindKey(rs, was.plugin, was.env).value);
    }
  }

  datatype Rebinding = Rebound | NothingToDo | ReconfigureRequired

  /** The two bindings name the same declaration. */
  predicate AgreeOn(was: Request, now: Request) {
    was.env == now.env && was.name == now.name && was.sensitive == now.sensitive
  }

  /** The record whose secret a rebinding carries over. */
  predicate Carried(r: Record, was: Request, now: Request) {
    r.id.plugin == was.plugin && r.id.env == was.env && r.id.package != now.package
  }

  class SettingsHome {
    const user: Binding
    var disks: map<Binding, Disk>
    var nextToken: Token
    /** The environment: while set, no write fails and no crash happens. */
    var reliable: bool
    ghost var log: seq<Event>

    constructor (user: Binding, reliable: bool)
      ensures Valid() && this.user == user && this.reliable == reliable
      ensures disks == map[]
    {
      this.user := user;
      disks, nextToken, log := map[], 0, [];
      this.reliable := reliable;
    }

    function Home(): World reads this`disks { World(user, disks) }

    function At(b: Binding): Disk reads this`disks { Home().At(b) }

    /** The durable state is the one some run of the protocol has led to. */
    ghost predicate Valid()
      reads this
    {
      && Reaches(World(user, map[]), log, Home())
      && forall b, t :: b in disks && t in disks[b].minted ==> t < nextToken
    }

    lemma Known(b: Binding)
      requires Valid()
      ensures WorldInv(Home()) && Inv(At(b)) && Belongs(b, At(b))
      ensures forall t :: t in At(b).minted ==> t < nextToken
    {
      assert WorldInv(World(user, map[]));
      RunKeepsInv(World(user, map[]), log, Home());
      EmptyDiskInv();
    }

    // ---- durable effects ---------------------------------------------------------------

    // One write or credential call: it lands or not, and the process learns of it or not.
    method Land(b: Binding, next: Disk, ghost a: Action) returns (ok: bool)
      requires Valid() && Allowed(Home(), Event(b, a)) && Apply(At(b), a) == next
      requires forall t :: t in next.minted ==> t < nextToken
      modifies this`disks, this`log
      ensures Valid() && old(log) <= log
      ensures || (disks == old(disks) && log == old(log))
              || (disks == old(disks)[b := next] && log == old(log) + [Event(b, a)])
      ensures disks - {b} == old(disks) - {b}
      ensures ok ==> At(b) == next
      ensures reliable ==> ok
    {
      var lost: bool, late: bool := *, *;
      if !reliable && lost { return false; }
      ReachesOneMore(World(user, map[]), log, Home(), Event(b, a));
      disks, log := disks[b := next], log + [Event(b, a)];
      ok := reliable || !late;
    }

    method Effect(b: Binding, next: Disk, ghost a: Action) returns (ok: bool)
      requires Valid() && Allowed(Home(), Event(b, a)) && Apply(At(b), a) == next
      requires forall t :: t in next.minted ==> t < nextToken
      modifies this`disks, this`log
      ensures Valid() && old(log) <= log
      ensures || (disks == old(disks) && log == old(log))
              || (disks == old(disks)[b := next] && log == old(log) + [Event(b, a)])
      ensures disks - {b} == old(disks) - {b}
      ensures ok ==> At(b) == next
      ensures reliable ==> ok
      ensures !a.Commit? ==> Same(old(At(b)), At(b))
      ensures Settles(a) ==> Recovered(At(b)) == Recovered(old(At(b)))
    {
      Known(b);
      EffectFacts(At(b), a);
      ok := Land(b, next, a);
    }

    // ---- recovery ----------------------------------------------------------------------

    /** Delete exactly this credential; if that fails, record the pending phase and give up. */
    method CleanupOrPending(b: Binding, op: Token, account: Account, pending: Phase) returns (out: Result<()>)
      requires Valid() && Linked(At(b), op) && Stale(At(b).Idx(), At(b).journals[op]) == {account}
      requires pending == if At(b).journals[op].SetJournal? then CleanupPending else CredentialCleanupPending
      modifies this`disks, this`log
      ensures Valid() && Calm(old(log), log)
      ensures disks - {b} == old(disks) - {b}
      ensures Same(old(At(b)), At(b)) && Recovered(At(b)) == Recovered(old(At(b)))
      ensures At(b).index == old(At(b).index)
      ensures At(b).journals - {op} == old(At(b)).journals - {op}
      ensures out.Ok? ==> At(b) == old(At(b)).(vault := old(At(b)).vault - {account})
      ensures out == Err(CleanupPendingError) ==>
        op in At(b).journals && At(b).journals[op] == old(At(b).journals[op]).At(pending)
      ensures reliable ==> out.Ok?
    {
      hide Inv, Recovered, Reaches, JournalShape;
      var d := At(b);
      var gone := Effect(b, d.(vault := d.vault - {account}), Drop(op));
      if gone { return Ok(()); }
      var e := At(b);
      assert e.index == d.index && e.journals == d.journals;
      var marked := Effect(b, e.(journals := e.journals[op := e.journals[op].At(pending)]), Mark(op, pending));
      return Err(if marked then CleanupPendingError else StorageUnavailable);
    }

    /** Take the reference out of the index and only then delete the journal file. */
    method Finish(b: Binding, op: Token) returns (out: Result<()>)
      requires Valid() && Linked(At(b), op)
      requires Stale(At(b).Idx(), At(b).journals[op]) !! At(b).vault.Keys
      modifies this`disks, this`log
      ensures Valid() && Calm(old(log), log)
      ensures disks - {b} == old(disks) - {b}
      ensures Same(old(At(b)), At(b)) && Recovered(At(b)) == Recovered(old(At(b)))
      ensures out.Ok? ==> var i := old(At(b)).Idx();
        At(b) == old(At(b)).(index := Some(i.(revision := i.revision + 1, refs := WithoutRef(i.refs, op))),
                             journals := old(At(b)).journals - {op})
      ensures out.Err? ==> out.error == StorageUnavailable
      ensures reliable ==> out.Ok?
    {
      hide Inv, Recovered, Reaches, JournalShape;
      var d := At(b);
      var i := d.Idx();
      var freed := Effect(b, d.(index := Some(i.(revision := i.revision + 1, refs := WithoutRef(i.refs, op)))), Unlink(op));
      if !freed { return Err(StorageUnavailable); }
      var e := At(b);
      var swept := Effect(b, e.(journals := e.journals - {op}), Sweep(op));
      if !swept { return Err(StorageUnavailable); }
      return Ok(());
    }

    /** Delete what an interrupted `set` left behind: the new credential before its commit, the
        replaced one after it. */
    method CleanSet(b: Binding, op: Token) returns (out: Result<()>)
      requires Valid() && Linked(At(b), op) && At(b).journals[op].SetJournal?
      modifies this`disks, this`log
      ensures Valid() && Calm(old(log), log)
      ensures disks - {b} == old(disks) - {b}
      ensures Same(old(At(b)), At(b)) && Recovered(At(b)) == Recovered(old(At(b)))
      ensures At(b).index == old(At(b).index)
      ensures out.Ok? ==> At(b).journals == old(At(b).journals)
      ensures out.Ok? ==> Stale(At(b).Idx(), At(b).journals[op]) !! At(b).vault.Keys
      ensures out == Err(CleanupPendingError) ==>
        Linked(At(b), op) && At(b).journals[op] == old(At(b).journals[op]).At(CleanupPending)
      ensures reliable ==> out.Ok?
    {
      hide Inv, Recovered, Reaches, Abs, VaultOk, JournalShape;
      Known(b);
      var i, j := At(b).Idx(), At(b).journals[op];
      if Committed(i, j) {
        var readable: bool := *;
        if !reliable && !readable { return Err(BackendUnavailable); }
        ForwardKeepsRecords(At(b), op);
        if j.prior.None? { return Ok(()); }
        out := CleanupOrPending(b, op, j.prior.value.Account(), CleanupPending);
      } else {
        out := CleanupOrPending(b, op, j.record.Account(), CleanupPending);
      }
    }

    /** Delete the credential of an interrupted `remove` whose tombstone is in the index. */
    method CleanRemove(b: Binding, op: Token) returns (out: Result<()>)
      requires Valid() && Linked(At(b), op) && At(b).journals[op].RemoveJournal?
      modifies this`disks, this`log
      ensures Valid() && Calm(old(log), log)
      ensures disks - {b} == old(disks) - {b}
      ensures Same(old(At(b)), At(b)) && Recovered(At(b)) == Recovered(old(At(b)))
      ensures At(b).index == old(At(b).index)
      ensures At(b).journals - {op} == old(At(b)).journals - {op}
      ensures out.Ok? ==> op in At(b).journals && Stale(At(b).Idx(), At(b).journals[op]) !! At(b).vault.Keys
      ensures reliable ==> out.Ok?
    {
      hide Inv, Recovered, Reaches, Abs, VaultOk, JournalShape;
      Known(b);
      var d := At(b);
      var j := d.journals[op];
      if !Committed(d.Idx(), j) { return Ok(()); }
      var marked := Effect(b, d.(journals := d.journals[op := j.At(CredentialCleanupPending)]), Mark(op, CredentialCleanupPending));
      if !marked { return Err(StorageUnavailable); }
      out := CleanupOrPending(b, op, j.record.Account(), CredentialCleanupPending);
    }

    /** Replay one referenced journal. */
    method ReplayJournal(b: Binding, op: Token) returns (out: Result<()>)
      requires Valid() && op in At(b).Idx().refs && op in At(b).journals
      modifies this`disks, this`log
      ensures Valid() && Calm(old(log), log)
      ensures disks - {b} == old(disks) - {b}
      ensures Same(old(At(b)), At(b)) && Recovered(At(b)) == Recovered(old(At(b)))
      ensures out.Ok? ==> At(b).Idx().refs == WithoutRef(old(At(b)).Idx().refs, op)
      ensures out.Ok? ==> At(b).Idx().records == old(At(b)).Idx().records
      ensures out.Ok? ==> At(b).Idx().tombstones == old(At(b)).Idx().tombstones
      ensures out.Ok? ==> At(b).journals == old(At(b)).journals - {op}
      ensures Undecidable(old(At(b)).Idx(), old(At(b)).journals[op]) ==> out.Err? && At(b) == old(At(b))
      ensures Foreign(old(At(b)).Idx(), old(At(b)).journals[op]) && out == Err(CleanupPendingError) ==> Stuck(At(b))
      ensures reliable ==> (out.Ok? <==> !Undecidable(old(At(b)).Idx(), old(At(b)).journals[op]))
    {
      hide Inv, Recovered, Reaches, Abs, VaultOk, JournalShape, Judge;
      Known(b);
      JudgeIsRight(At(b), op);
      var verdict := Judge(At(b).Idx(), At(b).journals[op]);
      if verdict == Refuse { return Err(StorageUnavailable); }
      if At(b).journals[op].SetJournal? {
        out := CleanSet(b, op);
      } else {
        out := CleanRemove(b, op);
      }
      if out.Err? { return; }
      out := Finish(b, op);
    }

    /** Delete one journal file no reference names. */
    method SweepOne(b: Binding, op: Token) returns (ok: bool)
      requires Valid() && At(b).Idx().refs == [] && op in At(b).journals
      modifies this`disks, this`log
      ensures Valid() && Calm(old(log), log)
      ensures disks - {b} == old(disks) - {b}
      ensures Same(old(At(b)), At(b)) && Recovered(At(b)) == Recovered(old(At(b)))
      ensures At(b).Idx().refs == []
      ensures ok ==> At(b).journals == old(At(b)).journals - {op}
      ensures reliable ==> ok
    {
      hide Inv, Recovered, Reaches, Abs;
      Known(b);
      var d := At(b);
      ok := Effect(b, d.(journals := d.journals - {op}), Sweep(op));
    }

    /** Delete the journal files no reference names. */
    method SweepOrphans(b: Binding) returns (out: Result<()>)
      requires Valid() && At(b).Idx().refs == []
      modifies this`disks, this`log
      ensures Valid() && Calm(old(log), log)
      ensures disks - {b} == old(disks) - {b}
      ensures Same(old(At(b)), At(b)) && Recovered(At(b)) == Recovered(old(At(b)))
      ensures At(b).Idx().refs == []
      ensures out.Ok? ==> At(b).journals == map[]
      ensures reliable ==> out.Ok?
    {
      hide Inv, Recovered, Reaches, Abs;
      Known(b);
      var orphans := At(b).journals.Keys;
      while orphans != {}
        invariant Valid() && Calm(old(log), log)
        invariant disks - {b} == old(disks) - {b}
        invariant Same(old(At(b)), At(b)) && Recovered(At(b)) == Recovered(old(At(b)))
        invariant At(b).Idx().refs == [] && At(b).journals.Keys == orphans
      {
        var op :| op in orphans;
        var swept := SweepOne(b, op);
        if !swept { return Err(StorageUnavailable); }
        orphans := orphans - {op};
      }
      return Ok(());
    }

    /** Replay the references of the index in order, stopping at the first that fails. */
    method ReplayAll(b: Binding) returns (out: Result<()>)
      requires Valid()
      modifies this`disks, this`log
      ensures Valid() && Calm(old(log), log)
      ensures disks - {b} == old(disks) - {b}
      ensures Same(old(At(b)), At(b)) && Recovered(At(b)) == Recovered(old(At(b)))
      ensures out.Ok? ==> At(b).Idx().refs == [] && !Stuck(old(At(b)))
      ensures reliable ==> (out.Ok? <==> !Stuck(old(At(b))))
      ensures Stuck(old(At(b))) ==> At(b) == old(At(b))
    {
      hide Inv, Recovered, Reaches, Abs, Committed, Undecidable, Stuck, Foreign, WithoutRef;
      Known(b);
      ghost var start := At(b);
      var refs := At(b).Idx().refs;
      RefsShape(start);
      NothingStuck(start);
      for k := 0 to |refs|
        invariant Valid() && Calm(old(log), log)
        invariant disks - {b} == old(disks) - {b}
        invariant Same(start, At(b)) && Recovered(At(b)) == Recovered(start)
        invariant At(b).Idx().refs == refs[k..]
        invariant forall n :: k <= n < |refs| ==>
          refs[n] in At(b).journals && At(b).journals[refs[n]] == start.journals[refs[n]]
        invariant k == 0 ==> At(b) == start
        invariant k > 0 ==> !Stuck(start)
      {
        assert refs[k] == refs[k..][0];
        LaterIsDecidable(At(b).Idx(), start, k);
        out := ReplayJournal(b, refs[k]);
        if out.Err? { return; }
        DropFirst(refs, k);
      }
      return Ok(());
    }

    /** `_read_or_recover_locked`: replay every reference in order, then sweep the orphans. */
    method ReadOrRecoverLocked(b: Binding) returns (out: Result<Option<Index>>)
      requires Valid()
      modifies this`disks, this`log
      ensures Valid() && Calm(old(log), log)
      ensures disks - {b} == old(disks) - {b}
      ensures Same(old(At(b)), At(b)) && Recovered(At(b)) == Recovered(old(At(b)))
      ensures out.Ok? ==> Quiet(At(b)) && At(b) == Recovered(old(At(b))) && out.value == At(b).index
      ensures reliable ==> (out.Ok? <==> !Stuck(old(At(b))))
      ensures Stuck(old(At(b))) ==> out.Err? && At(b) == old(At(b))
    {
      hide Inv, Recovered, Reaches, Abs, Stuck;
      var replayed := ReplayAll(b);
      if replayed.Err? { return Err(replayed.error); }
      var swept := SweepOrphans(b);
      if swept.Err? { return Err(swept.error); }
      Known(b);
      QuietIsRecovered(At(b));
      return Ok(At(b).index);
    }

    // ---- transactions ------------------------------------------------------------------

    /** The journal file first, then the index that refers to it. */
    method WriteJournalAndRef(b: Binding, j: Journal) returns (out: Result<()>)
      requires Valid() && Enabled(At(b), Stage(j)) && MayBegin(Home(), b, j)
      requires forall t :: t in MintedBy(j) ==> t < nextToken
      modifies this`disks, this`log
      ensures Valid() && Calm(old(log), log)
      ensures disks - {b} == old(disks) - {b}
      ensures Same(old(At(b)), At(b))
      ensures out.Ok? ==> At(b) == Begun(old(At(b)), j)
      ensures out.Err? ==> out.error == StorageUnavailable
      ensures reliable ==> out.Ok?
    {
      hide Inv, Reaches, Abs, VaultOk, RecordFields, JournalShape, RegistryCovers, Recovered, Covers, FindKey;
      Known(b);
      var d := At(b);
      var i := d.Idx();
      var staged := Effect(b, d.(journals := d.journals[j.op := j], minted := d.minted + MintedBy(j)), Stage(j));
      if !staged { return Err(StorageUnavailable); }
      var e := At(b);
      var linked := Effect(b, e.(index := Some(i.(revision := i.revision + 1, refs := i.refs + [j.op]))), Link(j.op));
      if !linked { return Err(StorageUnavailable); }
      return Ok(());
    }

    /** The single index write that decides an operation. */
    method CommitWrite(b: Binding, op: Token, next: Index) returns (ok: bool)
      requires Valid() && Enabled(At(b), Commit(op)) && next == CommitIndex(At(b).Idx(), At(b).journals[op])
      modifies this`disks, this`log
      ensures Valid() && old(log) <= log
      ensures disks - {b} == old(disks) - {b}
      ensures Inv(old(At(b))) && Inv(At(b))
      ensures Calm(old(log), log) ==> At(b) == old(At(b))
      ensures !Calm(old(log), log) ==>
        At(b) == old(At(b)).(index := Some(next)) && Abs(At(b)) == CommitView(old(At(b)), op)
      ensures ok ==> !Calm(old(log), log)
      ensures reliable ==> ok
    {
      hide Inv, Reaches, Abs, VaultOk, CommitView;
      Known(b);
      var d := At(b);
      StepRefines(d, Commit(op));
      ok := Land(b, d.(index := Some(next)), Commit(op));
      assert log != old(log) ==> log[|old(log)|] == Event(b, Commit(op));
    }

    /** The transaction of `set`, up to the phase `credential_written`. */
    method SetPrepare(b: Binding, j: Journal, value: Secret) returns (out: Result<()>)
      requires Valid() && Quiet(At(b)) && j.SetJournal?
      requires Enabled(At(b), Stage(j)) && MayBegin(Home(), b, j)
      requires forall t :: t in MintedBy(j) ==> t < nextToken
      modifies this`disks, this`log
      ensures Valid() && Calm(old(log), log)
      ensures disks - {b} == old(disks) - {b}
      ensures Same(old(At(b)), At(b))
      ensures out.Ok? ==> At(b) == SetReady(old(At(b)), j, value) && !Committed(At(b).Idx(), j)
      ensures reliable ==> out.Ok?
    {
      hide Inv, Reaches, Abs, VaultOk, RecordFields, JournalShape, RegistryCovers, FindKey, MayBegin, Committed;
      out := WriteJournalAndRef(b, j);
      if out.Err? { return; }
      out := WriteCredential(b, j, value);
    }

    /** Write the new credential, then say so in the journal. */
    method WriteCredential(b: Binding, j: Journal, value: Secret) returns (out: Result<()>)
      requires Valid() && j.SetJournal? && j.phase == Prepared && Linked(At(b), j.op) && At(b).journals[j.op] == j
      modifies this`disks, this`log
      ensures Valid() && Calm(old(log), log)
      ensures disks - {b} == old(disks) - {b}
      ensures Same(old(At(b)), At(b))
      ensures out.Ok? ==> !Committed(At(b).Idx(), j) && At(b) == old(At(b)).(
        vault := old(At(b)).vault[j.record.Account() := value],
        journals := old(At(b)).journals[j.op := j.At(CredentialWritten)])
      ensures reliable ==> out.Ok?
    {
      hide Inv, Reaches, Abs, VaultOk, JournalShape;
      Known(b);
      NotYetCommitted(At(b), j.op);
      var d := At(b);
      var put := Effect(b, d.(vault := d.vault[j.record.Account() := value]), Put(j.op, value));
      if !put { return Err(BackendUnavailable); }
      d := At(b);
      var marked := Effect(b, d.(journals := d.journals[j.op := j.At(CredentialWritten)]), Mark(j.op, CredentialWritten));
      return if marked then Ok(()) else Err(StorageUnavailable);
    }

    /** The transaction of `set`, from a quiet scope on. */
    method SetLocked(b: Binding, j: Journal, value: Secret) returns (out: Result<()>)
      requires Valid() && Quiet(At(b)) && j.SetJournal?
      requires Enabled(At(b), Stage(j)) && MayBegin(Home(), b, j)
      requires forall t :: t in MintedBy(j) ==> t < nextToken
      modifies this`disks, this`log
      ensures Valid() && old(log) <= log
      ensures disks - {b} == old(disks) - {b}
      ensures Inv(old(At(b))) && Inv(At(b))
      ensures Calm(old(log), log) ==> Abs(At(b)) == Abs(old(At(b)))
      ensures !Calm(old(log), log) ==> Abs(At(b)) == PutView(Abs(old(At(b))), j.record, value)
      ensures out.Ok? ==> !Calm(old(log), log) && At(b) == SetDone(old(At(b)), j, value)
      ensures reliable ==> out.Ok?
    {
      hide Inv, Reaches, Abs, VaultOk, PutView, WithoutIds, WithoutTombstone, MayBegin, Enabled, CommitView, CommitIndex, Committed,
           SetReady, SetCleaned, SetDone, Quiet;
      out := SetPrepare(b, j, value);
      if out.Err? { return; }
      Known(b);
      ReadyToCommit(old(At(b)), j, value);
      SetInTwo(old(At(b)), j, value);
      var i := At(b).Idx();
      var committed := CommitWrite(b, j.op, i.(
        revision := i.revision + 1,
        records := WithoutIds(i.records, Gone(j)) + [j.record],
        tombstones := WithoutTombstone(i.tombstones, j.record.id)));
      if !committed { return Err(StorageUnavailable); }
      out := SetCleanup(b, j);
    }

    /** The transaction of `set`, after its commit write. */
    method SetCleanup(b: Binding, j: Journal) returns (out: Result<()>)
      requires Valid() && j.SetJournal? && At(b).Idx().refs == [j.op]
      requires At(b).journals == map[j.op := j.At(CredentialWritten)] && Committed(At(b).Idx(), j)
      modifies this`disks, this`log
      ensures Valid() && old(log) <= log
      ensures disks - {b} == old(disks) - {b}
      ensures Same(old(At(b)), At(b))
      ensures out.Ok? ==> At(b) == SetCleaned(old(At(b)), j)
      ensures reliable ==> out.Ok?
    {
      hide Inv, Reaches, Abs, VaultOk, RecordFields, JournalShape, Recovered, WithoutRef;
      Known(b);
      var d := At(b);
      var marked := Effect(b, d.(journals := d.journals[j.op := j.At(MetadataCommitted)]), Mark(j.op, MetadataCommitted));
      if !marked { return Err(StorageUnavailable); }
      if j.prior.Some? {
        out := CleanupOrPending(b, j.op, j.prior.value.Account(), CleanupPending);
        if out.Err? { return; }
      }
      LastRef(j.op);
      out := Finish(b, j.op);
    }

    /** The transaction of `remove`, up to its commit write. */
    method RemoveTombstone(b: Binding, j: Journal) returns (out: Result<()>)
      requires Valid() && AllTombstoned(At(b)) && j.RemoveJournal?
      requires Enabled(At(b), Stage(j)) && MayBegin(Home(), b, j)
      requires j.tombstone.committedRevision == At(b).Idx().revision + 2
      requires forall t :: t in MintedBy(j) ==> t < nextToken
      modifies this`disks, this`log
      ensures Valid() && old(log) <= log
      ensures disks - {b} == old(disks) - {b}
      ensures Inv(old(At(b))) && Inv(At(b))
      ensures Calm(old(log), log) ==> Abs(At(b)) == Abs(old(At(b)))
      ensures !Calm(old(log), log) ==>
        At(b) == RemoveCommitted(old(At(b)), j) && Abs(At(b)) == DeleteView(Abs(old(At(b))), j.record, j.tombstone)
      ensures out.Ok? ==> !Calm(old(log), log) && Committed(At(b).Idx(), j)
      ensures out.Err? ==> out.error == StorageUnavailable
      ensures reliable ==> out.Ok?
    {
      hide Inv, Reaches, Abs, VaultOk, DeleteView, WithoutIds, MayBegin, Enabled, CommitView, CommitIndex, Committed;
      Known(b);
      out := WriteJournalAndRef(b, j);
      if out.Err? { return; }
      Known(b);
      ReadyToTombstone(old(At(b)), j);
      var i := At(b).Idx();
      var committed := CommitWrite(b, j.op, i.(
        revision := i.revision + 1,
        records := WithoutIds(i.records, {j.record.id}),
        tombstones := i.tombstones + [j.tombstone]));
      if !committed { return Err(StorageUnavailable); }
      return Ok(());
    }

    /** Delete the credential of a tombstoned record, keeping its journal's phase in step. */
    method EraseRemoved(b: Binding, j: Journal) returns (out: Result<()>)
      requires Valid() && j.RemoveJournal? && Linked(At(b), j.op) && At(b).journals[j.op] == j
      requires Committed(At(b).Idx(), j)
      modifies this`disks, this`log
      ensures Valid() && old(log) <= log
      ensures disks - {b} == old(disks) - {b}
      ensures Same(old(At(b)), At(b))
      ensures out.Ok? ==> At(b) == old(At(b)).(
        journals := old(At(b)).journals[j.op := j.At(CredentialCleanupPending)],
        vault := old(At(b)).vault - {j.record.Account()})
      ensures out.Ok? ==> Stale(At(b).Idx(), At(b).journals[j.op]) !! At(b).vault.Keys
      ensures out == Err(CleanupPendingError) ==> ErasePending(old(At(b)), At(b), j)
      ensures reliable ==> out.Ok?
    {
      hide Inv, Reaches, Abs, VaultOk, JournalShape, Recovered;
      var d := At(b);
      var marked := Effect(b, d.(journals := d.journals[j.op := j.At(TombstoneCommitted)]), Mark(j.op, TombstoneCommitted));
      if !marked { return Err(StorageUnavailable); }
      out := CleanupOrPending(b, j.op, j.record.Account(), CredentialCleanupPending);
      if out.Err? { return; }
      d := At(b);
      marked := Effect(b, d.(journals := d.journals[j.op := j.At(CredentialCleanupPending)]), Mark(j.op, CredentialCleanupPending));
      return if marked then Ok(()) else Err(StorageUnavailable);
    }

    /** The transaction of `remove`, after its commit write. */
    method RemoveCleanup(b: Binding, j: Journal) returns (out: Result<()>)
      requires Valid() && j.RemoveJournal? && Linked(At(b), j.op) && At(b).journals[j.op] == j
      requires Committed(At(b).Idx(), j) && IsLast(At(b).Idx().refs, j.op)
      modifies this`disks, this`log
      ensures Valid() && old(log) <= log
      ensures disks - {b} == old(disks) - {b}
      ensures Same(old(At(b)), At(b))
      ensures out.Ok? ==> At(b) == EraseDone(old(At(b)), j)
      ensures out == Err(CleanupPendingError) ==> ErasePending(old(At(b)), At(b), j)
      ensures reliable ==> out.Ok?
    {
      hide Inv, Reaches, Abs, VaultOk, Recovered, WithoutRef, Stale, Committed, IsLast;
      Known(b);
      LastRefGone(At(b), j.op);
      out := EraseRemoved(b, j);
      if out.Err? { return; }
      out := Finish(b, j.op);
    }

    /** The two transactions of `remove` in a row, for a journal built from the current index. */
    method RemoveLocked(b: Binding, j: Journal) returns (out: Result<()>)
      requires Valid() && AllTombstoned(At(b)) && j.RemoveJournal?
      requires Enabled(At(b), Stage(j)) && MayBegin(Home(), b, j) && j.op !in At(b).journals
      requires j.tombstone.committedRevision == At(b).Idx().revision + 2
      requires forall t :: t in MintedBy(j) ==> t < nextToken
      modifies this`disks, this`log
      ensures Valid() && old(log) <= log
      ensures disks - {b} == old(disks) - {b}
      ensures Inv(old(At(b))) && Inv(At(b))
      ensures Calm(old(log), log) ==> Abs(At(b)) == Abs(old(At(b)))
      ensures !Calm(old(log), log) ==> Abs(At(b)) == DeleteView(Abs(old(At(b))), j.record, j.tombstone)
      ensures out.Ok? ==> !Calm(old(log), log) && At(b) == RemoveDone(old(At(b)), j)
      ensures out == Err(CleanupPendingError) ==>
        !Calm(old(log), log) && AllTombstoned(At(b)) && At(b).index == RemoveCommitted(old(At(b)), j).index
      ensures reliable ==> out.Ok?
    {
      hide Inv, Reaches, Abs, VaultOk, DeleteView, Enabled, MayBegin, AllTombstoned, RemoveDone, EraseDone;
      StillTombstoned(At(b), j);
      RemoveInTwo(At(b), j);
      out := RemoveTombstone(b, j);
      if out.Err? { return; }
      ghost var e := At(b);
      out := RemoveCleanup(b, j);
      if out == Err(CleanupPendingError) { TombstonedKept(e, At(b), j); }
    }

    // ---- the workspace registry --------------------------------------------------------

    /** Rewrite the registry of the user index. */
    method WriteRegistry(registry: seq<Entry>, bumps: nat) returns (out: Result<()>)
      requires Valid() && bumps > 0 && DistinctEntries(registry)
      requires OnlyWorkspaces(Home(), registry) && RegistryCovers(Home(), registry)
      modifies this`disks, this`log
      ensures Valid() && Calm(old(log), log)
      ensures disks - {user} == old(disks) - {user}
      ensures Same(old(At(user)), At(user))
      ensures At(user).journals == old(At(user)).journals && At(user).Idx().refs == old(At(user)).Idx().refs
      ensures At(user).vault == old(At(user)).vault && At(user).Idx().records == old(At(user)).Idx().records
      ensures out.Ok? ==> var i := old(At(user)).Idx();
        At(user) == old(At(user)).(index := Some(i.(revision := i.revision + bumps, registry := registry)))
      ensures reliable ==> out.Ok?
    {
      hide Inv, Reaches, Abs, VaultOk, RegistryCovers;
      var d := At(user);
      var i := d.Idx();
      var written := Effect(user, d.(index := Some(i.(revision := i.revision + bumps, registry := registry))), Enroll(registry, bumps));
      return if written then Ok(()) else Err(StorageUnavailable);
    }

    /** Put the entry of a workspace into a state other than `removed`. */
    method Enlist(b: Binding, state: EntryState) returns (out: Result<()>)
      requires Valid() && state != Removed && b != user && WorkspaceName(b)
      modifies this`disks, this`log
      ensures Valid() && Calm(old(log), log)
      ensures disks - {user} == old(disks) - {user}
      ensures Same(old(At(user)), At(user))
      ensures At(user).journals == old(At(user)).journals && At(user).Idx().refs == old(At(user)).Idx().refs
      ensures out.Ok? ==> Covers(Home().Registry(), b)
      ensures out.Ok? ==> var revision := At(user).Idx().revision;
        revision == old(At(user)).Idx().revision + 1
        && OnRecord(old(Home().Registry()), Home().Registry(), b, state, revision)
      ensures reliable ==> out.Ok?
    {
      hide Inv, Reaches, Abs, VaultOk, UpsertEntry, OnRecord;
      Known(user);
      RegistryIsDistinct(At(user));
      var i := At(user).Idx();
      var entry := Entry(b, state, i.revision + 1);
      forall c { UpsertCovers(i.registry, entry, c); }
      UpsertFinds(i.registry, entry);
      out := WriteRegistry(UpsertEntry(i.registry, entry), 1);
    }

    /** `_register_workspace_locked`: before a workspace scope is first written, it is on record, as
        `registering` of the next revision unless it is `registered` already. */
    method RegisterWorkspaceLocked(b: Binding) returns (out: Result<()>)
      requires Valid() && b != user && WorkspaceName(b)
      modifies this`disks, this`log
      ensures Valid() && Calm(old(log), log)
      ensures disks - {user} == old(disks) - {user}
      ensures Same(old(At(user)), At(user))
      ensures out.Ok? ==> Covers(Home().Registry(), b) && At(user).Idx().refs == []
      ensures out.Ok? ==> var next := Recovered(old(At(user))).Idx().revision + 1;
        if HasState(old(Home().Registry()), b, Registered) then At(user) == Recovered(old(At(user)))
        else At(user).Idx().revision == next && OnRecord(old(Home().Registry()), Home().Registry(), b, Registering, next)
      ensures Stuck(old(At(user))) ==> out.Err?
      ensures reliable && !Stuck(old(At(user))) ==> out.Ok?
    {
      hide Inv, Reaches, Abs, Recovered, Stuck, RegistryCovers, OnRecord;
      Known(b);
      Known(user);
      RecoveredIndex(At(user));
      StateIsFound(At(user), b, Registered);
      FoundCovers(At(user).Idx().registry, b);
      var read := ReadOrRecoverLocked(user);
      if read.Err? { return Err(read.error); }
      var existing := FindEntry(At(user).Idx().registry, b);
      if existing.Some? && existing.value.state == Registered { return Ok(()); }
      out := Enlist(b, Registering);
    }

    /** `_mark_workspace_registered_locked`: after the first `set` the entry is `registered`, of the
        next revision unless it was so already. */
    method MarkWorkspaceRegisteredLocked(b: Binding) returns (out: Result<()>)
      requires Valid() && b != user && WorkspaceName(b)
      modifies this`disks, this`log
      ensures Valid() && Calm(old(log), log)
      ensures disks - {user} == old(disks) - {user}
      ensures Same(old(At(user)), At(user))
      ensures out.Ok? ==> HasState(Home().Registry(), b, Registered)
      ensures out.Ok? ==> var next := Recovered(old(At(user))).Idx().revision + 1;
        if HasState(old(Home().Registry()), b, Registered) then At(user) == Recovered(old(At(user)))
        else At(user).Idx().revision == next && OnRecord(old(Home().Registry()), Home().Registry(), b, Registered, next)
      ensures out.Ok? ==> FindEntry(old(Home().Registry()), b).Some? && !Stuck(old(At(user)))
      ensures reliable ==> (out.Ok? <==> FindEntry(old(Home().Registry()), b).Some? && !Stuck(old(At(user))))
    {
      hide Inv, Reaches, Abs, RegistryCovers, Recovered, Stuck;
      Known(b);
      Known(user);
      RecoveredIndex(At(user));
      StateIsFound(At(user), b, Registered);
      var read := ReadOrRecoverLocked(user);
      if read.Err? { return Err(read.error); }
      var existing := FindEntry(At(user).Idx().registry, b);
      if existing.None? { return Err(StorageUnavailable); }
      if existing.value.state == Registered { return Ok(()); }
      out := Enlist(b, Registered);
    }

    // ---- the public mutations ----------------------------------------------------------

    method DrawSetJournal(b: Binding, request: Request) returns (j: Journal)
      requires Valid() && Quiet(At(b)) && RecordFields(request.AsRecord(b, 0))
      modifies this`nextToken
      ensures Valid() && j.SetJournal? && j.record == request.AsRecord(b, j.record.generation)
      ensures j.prior == FindKey(At(b).Idx().records, request.plugin, request.env)
      ensures Enabled(At(b), Stage(j))
      ensures (b != user ==> Covers(Home().Registry(), b)) ==> MayBegin(Home(), b, j)
      ensures forall t :: t in MintedBy(j) ==> t < nextToken
      ensures j.record.generation !in At(b).minted
    {
      hide Inv, Reaches, IsHex, IsEnvVar, IsDisplayText;
      Known(b);
      FreshToken(At(b), nextToken);
      FreshToken(At(b), nextToken + 1);
      var prior := FindKey(At(b).Idx().records, request.plugin, request.env);
      j := SetJournal(nextToken, Prepared, request.AsRecord(b, nextToken + 1), prior);
      nextToken := nextToken + 2;
    }

    /** Register the workspace scope before anything is written to it. */
    method Prepare(b: Binding) returns (out: Result<()>)
      requires Valid() && (b == user || WorkspaceName(b))
      modifies this`disks, this`log
      ensures Valid() && Calm(old(log), log)
      ensures At(b) == old(At(b)) && disks - {user} == old(disks) - {user}
      ensures Same(old(At(user)), At(user))
      ensures out.Ok? && b != user ==> Covers(Home().Registry(), b) && At(user).Idx().refs == []
      ensures b != user && Stuck(old(At(user))) ==> out.Err?
      ensures reliable && (b == user || !Stuck(old(At(user)))) ==> out.Ok?
    {
      hide Inv, Reaches, Abs, Stuck, RegistryCovers, Covers, HasState, OnRecord, Recovered;
      Known(user);
      out := Ok(());
      if b != user {
        ghost var before := disks;
        out := RegisterWorkspaceLocked(b);
        Elsewhere(user, before, disks, user, b);
      }
    }

    /** A workspace scope that has been set is registered for good. */
    method Confirm(b: Binding) returns (out: Result<()>)
      requires Valid() && (b != user ==> WorkspaceName(b) && Covers(Home().Registry(), b) && At(user).Idx().refs == [])
      modifies this`disks, this`log
      ensures Valid() && Calm(old(log), log)
      ensures At(b) == old(At(b)) && disks - {user} == old(disks) - {user}
      ensures Same(old(At(user)), At(user))
      ensures out.Ok? && b != user ==> HasState(Home().Registry(), b, Registered)
      ensures reliable ==> out.Ok?
    {
      hide Inv, Reaches, Abs, Stuck, RegistryCovers, Covers, HasState, OnRecord, Recovered;
      Known(user);
      out := Ok(());
      if b != user {
        ghost var before := disks;
        CoveredIsFound(Home().Registry(), b);
        NothingStuck(At(user));
        out := MarkWorkspaceRegisteredLocked(b);
        Elsewhere(user, before, disks, user, b);
      }
    }

    /** Everything `set` does under its locks once the scope is recovered and on record. */
    method SetRecovered(b: Binding, request: Request, value: Secret) returns (out: Result<()>, ghost j: Journal)
      requires Valid() && Quiet(At(b)) && RecordFields(request.AsRecord(b, 0))
      requires b != user ==> Covers(Home().Registry(), b)
      modifies this`disks, this`log, this`nextToken
      ensures Valid() && old(log) <= log
      ensures disks - {b} == old(disks) - {b}
      ensures Inv(old(At(b))) && Inv(At(b))
      ensures Calm(old(log), log) ==> Abs(At(b)) == Abs(old(At(b)))
      ensures !Calm(old(log), log) ==> Replaces(old(At(b)), At(b), request.AsRecord(b, 0), j, value)
      ensures out.Ok? ==> !Calm(old(log), log) && At(b) == SetDone(old(At(b)), j, value)
      ensures out.Ok? ==> !StaleDeclaration(old(At(b)).Idx(), request)
      ensures reliable ==> (out.Ok? <==> !StaleDeclaration(old(At(b)).Idx(), request))
    {
      hide Inv, Reaches, Abs, PutView, RecordFields, SetDone, Enabled, MayBegin, Covers, Quiet;
      Known(b);
      if StaleDeclaration(At(b).Idx(), request) { return Err(DeclarationStale), *; }
      var journal := DrawSetJournal(b, request);
      j := journal;
      out := SetLocked(b, journal, value);
    }

    /** `set`: recover, compare the revision, register the scope, then run the transaction. */
    method Set(b: Binding, request: Request, value: Secret, expected: nat)
      returns (out: Result<Option<Index>>, ghost j: Journal)
      requires Valid() && (b == user || b.WorkspaceScope?)
      modifies this`disks, this`log, this`nextToken
      ensures Valid() && old(log) <= log
      ensures disks - {b, user} == old(disks) - {b, user}
      ensures b != user ==> Same(old(At(user)), At(user))
      ensures Inv(old(At(b))) && Inv(At(b))
      ensures Calm(old(log), log) ==> Abs(At(b)) == Abs(old(At(b)))
      ensures !Calm(old(log), log) ==> Recovered(old(At(b))).Idx().revision == expected
      ensures !Calm(old(log), log) ==> Replaces(old(At(b)), At(b), request.AsRecord(b, 0), j, value)
      ensures out.Ok? ==> !Calm(old(log), log) && out.value == At(b).index
      ensures out.Ok? ==> At(b) == SetDone(Recovered(old(At(b))), j, value)
      ensures Stuck(old(At(b))) ==> out.Err? && At(b) == old(At(b))
      ensures out.Ok? && b != user ==> HasState(Home().Registry(), b, Registered)
      ensures out.Ok? ==> MaySet(old(At(b)), old(At(user)), b, request, expected)
      ensures reliable ==> (out.Ok? <==> MaySet(old(At(b)), old(At(user)), b, request, expected))
    {
      hide Inv, Reaches, Abs, PutView, RecordFields, Stuck, Recovered, SetDone, FindKey, Covers, Replaces, StaleDeclaration,
           HasState, OnRecord;
      Known(b);
      Known(user);
      ghost var d, before := At(b), disks;
      assert {b, user} == {user, b};
      if !RecordFields(request.AsRecord(b, 0)) { return Err(DeclarationInvalid), *; }
      if b != user { FieldsNameScope(request.AsRecord(b, 0)); }
      var read := ReadOrRecoverLocked(b);
      Elsewhere(user, before, disks, b, user);
      if read.Err? { return Err(read.error), *; }
      if At(b).Idx().revision != expected { return Err(RevisionConflict), *; }
      ghost var recovered := disks;
      var registered := Prepare(b);
      Elsewhere(user, recovered, disks, user, b);
      if registered.Err? { return Err(registered.error), *; }
      ghost var prepared := disks;
      var done;
      done, j := SetRecovered(b, request, value);
      Elsewhere(user, prepared, disks, b, user);
      if !Calm(old(log), log) { ReplacesFromBefore(d, At(b), request.AsRecord(b, 0), j, value); }
      if done.Err? { return Err(done.error), j; }
      ghost var finished := disks;
      var marked := Confirm(b);
      Elsewhere(user, finished, disks, user, b);
      if marked.Err? { return Err(marked.error), j; }
      return Ok(At(b).index), j;
    }

    /** `_remove_record_locked`: the transaction of `remove` on a record of the current index,
        possibly behind removes whose cleanup is still pending. */
    method RemoveRecordLocked(b: Binding, record: Record) returns (out: Result<()>, ghost j: Journal)
      requires Valid() && record in At(b).Idx().records && AllTombstoned(At(b))
      modifies this`disks, this`log, this`nextToken
      ensures Valid() && old(log) <= log
      ensures disks - {b} == old(disks) - {b}
      ensures Inv(old(At(b))) && Inv(At(b))
      ensures Calm(old(log), log) ==> Abs(At(b)) == Abs(old(At(b)))
      ensures !Calm(old(log), log) ==> Deletes(old(At(b)), At(b), record, j)
      ensures !Calm(old(log), log) ==> j.tombstone.committedRevision == old(At(b)).Idx().revision + 2
      ensures out.Ok? ==> !Calm(old(log), log) && At(b) == RemoveDone(old(At(b)), j)
      ensures out == Err(CleanupPendingError) ==>
        !Calm(old(log), log) && AllTombstoned(At(b)) && At(b).index == RemoveCommitted(old(At(b)), j).index
      ensures reliable ==> out.Ok?
    {
      hide Inv, Reaches, Abs, DeleteView, RemoveDone, RemoveCommitted, RecordFields;
      Known(b);
      FreshToken(At(b), nextToken);
      var op := nextToken;
      nextToken := nextToken + 2;
      var journal := RemoveJournal(op, Prepared, record,
        Tombstone(record.id, record.id.plugin, record.id.package, record.Declared(), record.binding, op + 1, At(b).Idx().revision + 2));
      j := journal;
      out := RemoveLocked(b, journal);
    }

    /** `remove`: recover, compare the revision, find the exact record, then run the transaction. */
    method Remove(b: Binding, request: Request, expected: nat) returns (out: Result<Option<Index>>, ghost j: Journal)
      requires Valid()
      modifies this`disks, this`log, this`nextToken
      ensures Valid() && old(log) <= log
      ensures disks - {b} == old(disks) - {b}
      ensures Inv(old(At(b))) && Inv(At(b))
      ensures Calm(old(log), log) ==> Abs(At(b)) == Abs(old(At(b)))
      ensures !Calm(old(log), log) ==>
        && FindExact(old(At(b)).Idx().records, request) == Some(j.record)
        && Deletes(old(At(b)), At(b), j.record, j)
        && j.tombstone.committedRevision == expected + 2
      ensures !Calm(old(log), log) ==> Recovered(old(At(b))).Idx().revision == expected
      ensures out.Ok? ==> !Calm(old(log), log) && out.value == At(b).index
      ensures out.Ok? ==> At(b) == RemoveDone(Recovered(old(At(b))), j)
      ensures Stuck(old(At(b))) ==> out.Err? && At(b) == old(At(b))
      ensures out.Ok? ==> MayRemove(old(At(b)), b, request, expected)
      ensures reliable ==> (out.Ok? <==> MayRemove(old(At(b)), b, request, expected))
    {
      hide Inv, Reaches, Abs, RecordFields, Stuck, RemoveDone, RemoveCommitted;
      Known(b);
      RecoveredAgrees(At(b));
      if !RecordFields(request.AsRecord(b, 0)) { return Err(DeclarationInvalid), *; }
      var read := ReadOrRecoverLocked(b);
      if read.Err? { return Err(read.error), *; }
      if At(b).index.None? { return Err(RecordNotFound), *; }
      if At(b).Idx().revision != expected { return Err(RevisionConflict), *; }
      var found := FindExact(At(b).Idx().records, request);
      if found.None? { return Err(RecordNotFound), *; }
      var done;
      done, j := RemoveRecordLocked(b, found.value);
      if !Calm(old(log), log) { DeletesFromBefore(old(At(b)), At(b), found.value, j); }
      if done.Err? { return Err(done.error), j; }
      return Ok(At(b).index), j;
    }

    /** `rebind_plugin_setting`: carry the secret of a setting over to a new package. The
        declarations must agree; otherwise the old record stays and the caller is warned. Nothing
        compares the plugins: under another plugin's name the secret is copied and not moved. */
    method Rebind(b: Binding, was: Request, now: Request)
      returns (out: Result<Rebinding>, ghost j: Journal, ghost secret: Secret)
      requires Valid() && (b == user || b.WorkspaceScope?)
      modifies this`disks, this`log, this`nextToken
      ensures Valid() && old(log) <= log
      ensures disks - {b, user} == old(disks) - {b, user}
      ensures Inv(old(At(b))) && Inv(At(b))
      ensures Calm(old(log), log) ==> Abs(At(b)) == Abs(old(At(b)))
      ensures !Calm(old(log), log) ==> Replaces(old(At(b)), At(b), now.AsRecord(b, 0), j, secret)
      ensures !Calm(old(log), log) ==> CarriesOver(old(At(b)), At(b), was, now, j, secret)
      ensures out == Ok(Rebound) ==> !Calm(old(log), log)
      ensures out.Ok? && out != Ok(Rebound) ==> Calm(old(log), log)
      ensures out == Ok(NothingToDo) ==> forall r :: r in old(At(b)).Idx().records ==> !Carried(r, was, now)
      ensures out == Ok(ReconfigureRequired) ==> !AgreeOn(was, now)
    {
      hide Inv, Reaches, Abs, PutView, RecordFields, Stuck, Recovered, SetDone, Covers, StaleDeclaration, MaySet, HasState,
           Replaces, CarriesOver, Carried, AgreeOn, Quiet;
      Known(b);
      ghost var d, before := At(b), disks;
      RecoveredIndex(d);
      RecordsAreDistinct(d);
      NothingCarried(d.Idx().records, was, now);
      var read := ReadOrRecoverLocked(b);
      Elsewhere(user, before, disks, b, user);
      if read.Err? { return Err(read.error), *, *; }
      if read.value.None? { return Ok(NothingToDo), *, *; }
      var index := read.value.value;
      var found := FindKey(index.records, was.plugin, was.env);
      if found.None? || found.value.id.package == now.package { return Ok(NothingToDo), *, *; }
      if !AgreeOn(was, now) { return Ok(ReconfigureRequired), *, *; }
      var readable: bool := *;
      if !reliable && !readable { return Err(BackendUnavailable), *, *; }
      Known(b);
      ghost var e := At(b);
      SecretOf(e, found.value);
      var value := At(b).vault[found.value.Account()];
      secret := value;
      var done;
      done, j := Set(b, now, value, index.revision);
      if !Calm(old(log), log) {
        CarriedOver(d, e, At(b), b, was, now, found.value, j, value);
      }
      if done.Err? { return Err(done.error), j, value; }
      return Ok(Rebound), j, value;
    }
  }
}
