/** Uninstalling a plugin from one scope: recover it, then remove the plugin's records. */
module SettingsScopeUninstall {
  import opened Wrappers
  import opened SettingsModel
  import opened SettingsProtocol
  import opened SettingsHistory
  import opened SettingsAtomicity
  import opened SettingsRecovery
  import opened SettingsStore

  /** Nothing of this plugin is left in the scope, neither record nor credential. */
  ghost predicate PluginGone(d: Disk, plugin: string) {
    && (forall r :: r in d.Idx().records ==> r.id.plugin != plugin)
    && (forall a :: a in d.vault ==> a.id.plugin != plugin)
  }

  /** From `d` to `e` nothing was added, and only records of this plugin left. */
  ghost predicate Keeps(d: Disk, e: Disk, plugin: string) {
    && Inv(d) && Inv(e)
    && Abs(e).active <= Abs(d).active
    && forall p :: p in Abs(d).active && p.0.id.plugin != plugin ==> p in Abs(e).active
  }

  lemma KeepsSame(d: Disk, e: Disk, plugin: string)
    requires Same(d, e)
    ensures Keeps(d, e, plugin)
  {
  }

  lemma KeepsTwice(d: Disk, e: Disk, f: Disk, plugin: string)
    requires Keeps(d, e, plugin) && Keeps(e, f, plugin)
    ensures Keeps(d, f, plugin)
  {
    hide Inv, Abs;
  }

  lemma KeepsDeleted(d: Disk, e: Disk, record: Record, j: Journal)
    requires Inv(d) && Inv(e) && Deletes(d, e, record, j)
    ensures Keeps(d, e, record.id.plugin)
  {
    hide Inv, Abs;
  }

  lemma QuietPluginGone(d: Disk, plugin: string)
    requires Inv(d) && Quiet(d) && forall r :: r in d.Idx().records ==> r.id.plugin != plugin
    ensures PluginGone(d, plugin)
  {
    QuietIsRecovered(d);
  }

  lemma QuietTombstoned(d: Disk)
    requires Quiet(d)
    ensures AllTombstoned(d)
  {
  }

  lemma VacantPluginGone(d: Disk, plugin: string)
    requires !Occupied(d)
    ensures PluginGone(d, plugin)
  {
  }

  /** The records of one plugin, in index order. */
  function RecordsOf(rs: seq<Record>, plugin: string): (mine: seq<Record>)
    ensures forall r :: r in mine <==> r in rs && r.id.plugin == plugin
    ensures DistinctKeys(rs) ==> DistinctKeys(mine)
  {
    if rs == [] then []
    else
      var last := rs[|rs| - 1];
      var front := RecordsOf(rs[..|rs| - 1], plugin);
      assert rs == rs[..|rs| - 1] + [last];
      if last.id.plugin == plugin then front + [last] else front
  }

  predicate HasTombstoneOf(ts: seq<Tombstone>, plugin: string) {
    exists t :: t in ts && t.plugin == plugin
  }

  predicate Knows(i: Index, plugin: string) {
    (exists r :: r in i.records && r.id.plugin == plugin) || HasTombstoneOf(i.tombstones, plugin)
  }

  lemma MineIsKnown(i: Index, plugin: string)
    ensures RecordsOf(i.records, plugin) != [] || HasTombstoneOf(i.tombstones, plugin) <==> Knows(i, plugin)
  {
    var mine := RecordsOf(i.records, plugin);
    if mine != [] { assert mine[0] in mine; }
  }

  /** What an uninstall is asked for. `mismatched` are the registered scopes for which the caller's
      resolver supplied the store of another workspace. */
  datatype Job = Job(plugin: string, package: Option<string>, mismatched: set<Binding>)

  /** A scope the uninstall can finish when nothing fails: it has an index, can be recovered and
      holds no record of another package than the one named. */
  ghost predicate Healthy(d: Disk, job: Job) {
    && d.index.Some? && !Stuck(d)
    && (job.package.Some? ==>
          forall r :: r in d.Idx().records && r.id.plugin == job.plugin ==> r.id.package == job.package.value)
  }

  ghost predicate Finishable(b: Binding, d: Disk, job: Job) { b !in job.mismatched && Healthy(d, job) }

  // ---- one scope -----------------------------------------------------------------------

  /** What one removal does to the index the next one starts from. */
  ghost predicate RemovedFrom(d: Disk, e: Disk, record: Record) {
    && (forall r :: r in e.Idx().records <==> r in d.Idx().records && r.id != record.id)
    && AllTombstoned(e)
    && e.Idx().registry == d.Idx().registry
    && e.index.Some?
  }

  lemma AfterRemoval(d: Disk, e: Disk, record: Record, j: Journal)
    requires AllTombstoned(d) && j.RemoveJournal? && j.record == record && e == RemoveDone(d, j)
    ensures RemovedFrom(d, e, record) && (Quiet(d) ==> Quiet(e))
  {
  }

  lemma AfterPending(d: Disk, e: Disk, record: Record, j: Journal)
    requires AllTombstoned(e) && j.RemoveJournal? && j.record == record && e.index == RemoveCommitted(d, j).index
    ensures RemovedFrom(d, e, record)
  {
  }

  /** Every id listed is that of one of the records, and that record is in the index no more. */
  ghost predicate Removals(ids: seq<SettingId>, records: seq<Record>, d: Disk) {
    forall id :: id in ids ==> exists r :: r in records && r.id == id && r !in d.Idx().records
  }

  /** The ids of all the records are listed. */
  ghost predicate Lists(ids: seq<SettingId>, records: seq<Record>) {
    forall r :: r in records ==> r.id in ids
  }

  lemma KeepsFewer(d: Disk, e: Disk, plugin: string)
    requires Keeps(d, e, plugin)
    ensures forall r :: r in e.Idx().records ==> r in d.Idx().records
  {
    hide IndexOk, RefsOk, TokensOk;
    forall r | r in e.Idx().records ensures r in d.Idx().records {
      assert (r, e.vault[r.Account()]) in Abs(e).active;
    }
  }

  lemma RemovalsStay(ids: seq<SettingId>, records: seq<Record>, d: Disk, e: Disk)
    requires Removals(ids, records, d) && forall r :: r in e.Idx().records ==> r in d.Idx().records
    ensures Removals(ids, records, e)
  {
    forall id | id in ids ensures exists r :: r in records && r.id == id && r !in e.Idx().records {
      var r :| r in records && r.id == id && r !in d.Idx().records;
    }
  }

  lemma OneMoreRemoval(ids: seq<SettingId>, records: seq<Record>, record: Record, e: Disk)
    requires Removals(ids, records, e) && record in records && record !in e.Idx().records
    ensures Removals(ids + [record.id], records, e)
  {
  }

  lemma OneMoreListed(ids: seq<SettingId>, records: seq<Record>, k: nat)
    requires k < |records| && Lists(ids, records[..k])
    ensures Lists(ids + [records[k].id], records[..k + 1])
  {
    assert records[..k + 1] == records[..k] + [records[k]];
  }

  /** Remove these records one after the other. A failed credential cleanup is remembered; the loop
      goes on after it with `keepGoing`, and ends there without, as in a workspace scope. */
  method RemoveTargets(home: SettingsHome, b: Binding, plugin: string, targets: seq<Record>, keepGoing: bool)
    returns (out: Result<bool>, removed: seq<SettingId>)
    requires home.Valid() && Quiet(home.At(b)) && home.At(b).index.Some?
    requires DistinctKeys(targets)
    requires forall r :: r in targets ==> r in home.At(b).Idx().records && r.id.plugin == plugin
    modifies home`disks, home`log, home`nextToken
    ensures home.Valid() && old(home.log) <= home.log
    ensures home.disks - {b} == old(home.disks) - {b}
    ensures Keeps(old(home.At(b)), home.At(b), plugin)
    ensures out == Ok(true) ==> Quiet(home.At(b)) && Lists(removed, targets)
    ensures out == Ok(true) || (out.Ok? && keepGoing) ==> forall r :: r in targets ==> r !in home.At(b).Idx().records
    ensures out.Ok? ==> forall r :: r in old(home.At(b)).Idx().records && r !in targets ==> r in home.At(b).Idx().records
    ensures out.Ok? ==> forall r :: r in home.At(b).Idx().records ==> r in old(home.At(b)).Idx().records
    ensures out.Ok? ==> home.At(b).index.Some? && home.At(b).Idx().registry == old(home.At(b)).Idx().registry
    ensures Removals(removed, targets, home.At(b))
    ensures home.reliable ==> out == Ok(true)
  {
    hide Inv, Reaches, Abs, Keeps, RemoveDone, RemoveCommitted, AllTombstoned, Quiet, DeleteView, Removals, Lists;
    home.Known(b);
    ghost var start := home.At(b);
    KeepsSame(start, start, plugin);
    QuietTombstoned(start);
    removed := [];
    NothingRemoved(targets, start);
    var clean := true;
    for k := 0 to |targets|
      invariant home.Valid() && old(home.log) <= home.log
      invariant home.disks - {b} == old(home.disks) - {b}
      invariant Keeps(start, home.At(b), plugin)
      invariant AllTombstoned(home.At(b)) && home.At(b).index.Some?
      invariant home.At(b).Idx().registry == start.Idx().registry
      invariant Progress(start, home.At(b), targets, k)
      invariant Removals(removed, targets, home.At(b))
      invariant clean ==> Quiet(home.At(b)) && Lists(removed, targets[..k])
      invariant home.reliable ==> clean
    {
      var record := targets[k];
      ghost var d := home.At(b);
      home.Known(b);
      var one := RemoveOne(home, b, record);
      KeepsTwice(start, d, home.At(b), plugin);
      KeepsFewer(d, home.At(b), plugin);
      RemovalsStay(removed, targets, d, home.At(b));
      if one.Err? && one.error != CleanupPendingError { return Err(one.error), removed; }
      ProgressStep(start, d, home.At(b), targets, k);
      if one.Ok? {
        OneMoreRemoval(removed, targets, record, home.At(b));
        if clean { OneMoreListed(removed, targets, k); }
        removed := removed + [record.id];
      } else {
        clean := false;
        if !keepGoing { return Ok(false), removed; }
      }
    }
    assert targets[..|targets|] == targets;
    return Ok(clean), removed;
  }

  lemma NothingRemoved(targets: seq<Record>, d: Disk)
    ensures Removals([], targets, d) && Lists([], targets[..0])
  {
  }

  /** The first `k` targets are out of the index, and nothing else is. */
  ghost predicate Progress(start: Disk, d: Disk, targets: seq<Record>, k: nat)
    requires k <= |targets|
  {
    && (forall n :: k <= n < |targets| ==> targets[n] in d.Idx().records)
    && (forall n :: 0 <= n < k ==> targets[n] !in d.Idx().records)
    && (forall r :: r in d.Idx().records ==> r in start.Idx().records)
    && (forall r :: r in start.Idx().records && r !in targets ==> r in d.Idx().records)
  }

  lemma ProgressStep(start: Disk, d: Disk, e: Disk, targets: seq<Record>, k: nat)
    requires k < |targets| && Progress(start, d, targets, k) && RemovedFrom(d, e, targets[k])
    requires Inv(d) && DistinctKeys(targets)
    ensures Progress(start, e, targets, k + 1)
  {
    hide AllTombstoned, VaultOk, RefsOk, TokensOk;
    assert forall n :: k < n < |targets| ==> !targets[k].SameKey(targets[n]);
    forall r | r in d.Idx().records && r.id == targets[k].id ensures r == targets[k] {
      KeyIdentifiesRecord(d.Idx().records, r, targets[k]);
    }
  }

  /** `_remove_record_locked`, with what it means for the loops that call it. */
  method RemoveOne(home: SettingsHome, b: Binding, record: Record) returns (out: Result<()>)
    requires home.Valid() && record in home.At(b).Idx().records && AllTombstoned(home.At(b))
    modifies home`disks, home`log, home`nextToken
    ensures home.Valid() && old(home.log) <= home.log
    ensures home.disks - {b} == old(home.disks) - {b}
    ensures Keeps(old(home.At(b)), home.At(b), record.id.plugin)
    ensures out.Ok? || out == Err(CleanupPendingError) ==> RemovedFrom(old(home.At(b)), home.At(b), record)
    ensures out.Ok? && Quiet(old(home.At(b))) ==> Quiet(home.At(b))
    ensures home.reliable ==> out.Ok?
  {
    hide Inv, Reaches, Abs, DeleteView, Keeps, RemoveDone, RemoveCommitted, AllTombstoned, Quiet, RemovedFrom;
    ghost var d := home.At(b);
    ghost var j;
    out, j := home.RemoveRecordLocked(b, record);
    ghost var e := home.At(b);
    if Calm(old(home.log), home.log) { KeepsSame(d, e, record.id.plugin); } else { KeepsDeleted(d, e, record, j); }
    if out.Ok? { AfterRemoval(d, e, record, j); }
    if out == Err(CleanupPendingError) { AfterPending(d, e, record, j); }
  }

  datatype ScopeOutcome = Failed | Kept | Emptied

  lemma QuietEmpty(d: Disk)
    requires Inv(d) && Quiet(d) && d.Idx().records == []
    ensures !Occupied(d)
  {
    QuietIsRecovered(d);
    assert forall a :: a !in d.vault;
  }

  /** How one workspace scope is left, from `d` to `e`. */
  ghost predicate ScopeDone(d: Disk, e: Disk, b: Binding, job: Job, reliable: bool, outcome: ScopeOutcome,
                            removed: seq<SettingId>)
  {
    && (outcome != Failed ==>
          Finishable(b, d, job) && PluginGone(e, job.plugin) && Lists(removed, RecordsOf(d.Idx().records, job.plugin)))
    && (outcome == Failed && reliable ==> !Finishable(b, d, job))
    && (outcome == Emptied <==> outcome != Failed && Knows(d.Idx(), job.plugin) && e.Idx().records == [])
    && (outcome == Emptied ==> !Occupied(e))
    && Removals(removed, RecordsOf(d.Idx().records, job.plugin), e)
  }

  lemma QuietIsNotStuck(d: Disk)
    requires Inv(d)
    ensures !Stuck(Recovered(d))
  {
    NothingStuck(Recovered(d));
  }

  /** Remove the plugin's records from a recovered workspace scope. */
  method ClearScope(home: SettingsHome, b: Binding, job: Job) returns (outcome: ScopeOutcome, removed: seq<SettingId>)
    requires home.Valid() && Quiet(home.At(b)) && home.At(b).index.Some?
    requires b !in job.mismatched && Healthy(home.At(b), job.(package := None))
    modifies home`disks, home`log, home`nextToken
    ensures home.Valid() && old(home.log) <= home.log
    ensures home.disks - {b} == old(home.disks) - {b}
    ensures Keeps(old(home.At(b)), home.At(b), job.plugin)
    ensures ScopeDone(old(home.At(b)), home.At(b), b, job, home.reliable, outcome, removed)
  {
    hide Inv, Reaches, Abs, Keeps, Stuck, Quiet, Occupied, PluginGone, Lists, Removals, Recovered;
    home.Known(b);
    ghost var d := home.At(b);
    KeepsSame(d, d, job.plugin);
    IndexShape(d);
    var i := home.At(b).Idx();
    var targets := RecordsOf(i.records, job.plugin);
    var found := targets != [] || HasTombstoneOf(i.tombstones, job.plugin);
    MineIsKnown(i, job.plugin);
    if job.package.Some? && exists r :: r in targets && r.id.package != job.package.value {
      NothingRemoved(targets, d);
      return Failed, [];
    }
    var clean;
    clean, removed := RemoveTargets(home, b, job.plugin, targets, false);
    if clean != Ok(true) { return Failed, removed; }
    home.Known(b);
    QuietPluginGone(home.At(b), job.plugin);
    if found && home.At(b).Idx().records == [] {
      QuietEmpty(home.At(b));
      return Emptied, removed;
    }
    return Kept, removed;
  }

  // What is done to a scope once it is recovered is done to the scope as it was.
  lemma DoneFromBefore(d: Disk, e: Disk, b: Binding, job: Job, reliable: bool, outcome: ScopeOutcome, removed: seq<SettingId>)
    requires !Stuck(d) && ScopeDone(Recovered(d), e, b, job, reliable, outcome, removed)
    requires Inv(d)
    ensures ScopeDone(d, e, b, job, reliable, outcome, removed)
  {
    hide Inv, Stuck, Recovered, Occupied, PluginGone, Lists, Removals;
    RecoveredIndex(d);
    QuietIsNotStuck(d);
  }

  /** One registered workspace scope: recover it, then remove the plugin's records. */
  method UninstallScope(home: SettingsHome, b: Binding, job: Job) returns (outcome: ScopeOutcome, removed: seq<SettingId>)
    requires home.Valid()
    modifies home`disks, home`log, home`nextToken
    ensures home.Valid() && old(home.log) <= home.log
    ensures home.disks - {b} == old(home.disks) - {b}
    ensures Keeps(old(home.At(b)), home.At(b), job.plugin)
    ensures ScopeDone(old(home.At(b)), home.At(b), b, job, home.reliable, outcome, removed)
  {
    hide Inv, Reaches, Abs, Keeps, Stuck, Quiet, Occupied, PluginGone, Lists, Removals, Recovered, Knows;
    home.Known(b);
    ghost var d := home.At(b);
    KeepsSame(d, d, job.plugin);
    NothingRemoved(RecordsOf(d.Idx().records, job.plugin), d);
    if b in job.mismatched { return Failed, []; }
    RecoveredIndex(d);
    QuietIsNotStuck(d);
    var read := home.ReadOrRecoverLocked(b);
    KeepsSame(d, home.At(b), job.plugin);
    NothingRemoved(RecordsOf(d.Idx().records, job.plugin), home.At(b));
    if read.Err? || read.value.None? { return Failed, []; }
    ghost var e := home.At(b);
    outcome, removed := ClearScope(home, b, job);
    KeepsTwice(d, e, home.At(b), job.plugin);
    DoneFromBefore(d, home.At(b), b, job, home.reliable, outcome, removed);
  }

  lemma IndexShape(d: Disk)
    requires Inv(d)
    ensures DistinctKeys(d.Idx().records) && DistinctEntries(d.Idx().registry)
  {
  }
}
