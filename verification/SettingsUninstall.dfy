/** Uninstalling a plugin: its records leave the user scope and every registered workspace scope,
    and whatever could not be finished is reported as partial. */
module SettingsUninstall {
  import opened Wrappers
  import opened SettingsModel
  import opened SettingsProtocol
  import opened SettingsHistory
  import opened SettingsAtomicity
  import opened SettingsRecovery
  import opened SettingsStore
  import opened SettingsScopeUninstall
  import opened SettingsWorkspaceUninstall

  // ---- before anything is changed --------------------------------------------------------

  /** Recoveries, complete or not, are all that happened to the scope. Without failures an attempt
      either changed nothing or completed. */
  ghost predicate Resettled(d: Disk, e: Disk, reliable: bool) {
    && Same(d, e) && Recovered(e) == Recovered(d)
    && (Stuck(d) ==> e == d)
    && (reliable ==> e == d || (!Stuck(d) && e == Recovered(d)))
  }

  lemma ResettledTwice(d: Disk, e: Disk, f: Disk, reliable: bool)
    requires Resettled(d, e, reliable) && Resettled(e, f, reliable)
    ensures Resettled(d, f, reliable)
  {
    hide Inv, Abs, Stuck, Recovered;
  }

  lemma ResettledContent(d: Disk, e: Disk, reliable: bool)
    requires Resettled(d, e, reliable)
    ensures e.index.Some? <==> d.index.Some?
    ensures forall r :: r in e.Idx().records <==> r in d.Idx().records
    ensures forall t :: t in e.Idx().tombstones <==> t in d.Idx().tombstones
    ensures e.Idx().registry == d.Idx().registry
  {
    RecoveredIndex(d);
    RecoveredIndex(e);
  }

  lemma ResettledHealth(d: Disk, e: Disk, reliable: bool, job: Job)
    requires Resettled(d, e, reliable)
    ensures Healthy(e, job) ==> Healthy(d, job)
    ensures reliable ==> (Stuck(e) <==> Stuck(d))
    ensures reliable && Healthy(d, job) ==> Healthy(e, job)
    ensures Knows(e.Idx(), job.plugin) <==> Knows(d.Idx(), job.plugin)
  {
    hide Inv, Abs, Stuck, Recovered;
    ResettledContent(d, e, reliable);
    QuietIsNotStuck(d);
  }

  /** The index of the scope can be read. */
  ghost predicate Readable(b: Binding, d: Disk, job: Job) { b !in job.mismatched && d.index.Some? && !Stuck(d) }

  ghost predicate KnownAt(b: Binding, d: Disk, job: Job) { Readable(b, d, job) && Knows(d.Idx(), job.plugin) }

  ghost predicate AllResettled(w: World, v: World, reliable: bool) { forall c :: Resettled(w.At(c), v.At(c), reliable) }

  lemma ResettledOne(w: World, v: World, u: World, b: Binding, reliable: bool)
    requires AllResettled(w, v, reliable) && v.user == u.user && v.disks - {b} == u.disks - {b}
    requires Resettled(v.At(b), u.At(b), reliable)
    ensures AllResettled(w, u, reliable)
  {
    hide Resettled;
    forall c ensures Resettled(w.At(c), u.At(c), reliable) {
      Elsewhere(v.user, v.disks, u.disks, b, c);
      if c == b { ResettledTwice(w.At(c), v.At(c), u.At(c), reliable); }
    }
  }

  lemma NothingResettled(home: SettingsHome)
    requires home.Valid()
    ensures AllResettled(home.Home(), home.Home(), home.reliable)
  {
    hide Inv, Abs, Stuck, Recovered;
    forall c { home.Known(c); }
  }

  lemma ResettledKeeps(w: World, v: World, reliable: bool, plugin: string)
    requires AllResettled(w, v, reliable) && w.user == v.user
    ensures HomeKeeps(w.user, w.disks, v.disks, plugin)
  {
    hide Inv, Abs, Stuck, Recovered, Keeps;
    forall c ensures Keeps(w.At(c), v.At(c), plugin) {
      assert Resettled(w.At(c), v.At(c), reliable);
      KeepsSame(w.At(c), v.At(c), plugin);
    }
  }

  /** Read one scope on the way: known there, or not readable. */
  method Probe(home: SettingsHome, b: Binding, job: Job) returns (found: bool, unreadable: bool)
    requires home.Valid()
    modifies home`disks, home`log
    ensures home.Valid() && Calm(old(home.log), home.log)
    ensures home.disks - {b} == old(home.disks) - {b}
    ensures Resettled(old(home.At(b)), home.At(b), home.reliable)
    ensures found ==> KnownAt(b, old(home.At(b)), job)
    ensures !Readable(b, old(home.At(b)), job) ==> unreadable
    ensures KnownAt(b, old(home.At(b)), job) ==> found || unreadable
    ensures home.reliable ==> (found <==> KnownAt(b, old(home.At(b)), job)) && (unreadable <==> !Readable(b, old(home.At(b)), job))
  {
    hide Inv, Reaches, Abs, Recovered, Stuck;
    home.Known(b);
    if b in job.mismatched { return false, true; }
    RecoveredIndex(home.At(b));
    var read := home.ReadOrRecoverLocked(b);
    if read.Err? || read.value.None? { return false, true; }
    return Knows(read.value.value, job.plugin), false;
  }

  /** When the user scope does not know the plugin, look for it in every registered scope before
      anything is changed. */
  method Preflight(home: SettingsHome, entries: seq<Entry>, job: Job) returns (found: bool, unreadable: bool)
    requires home.Valid()
    requires forall e :: e in entries ==> e.binding != home.user
    modifies home`disks, home`log
    ensures home.Valid() && Calm(old(home.log), home.log)
    ensures home.At(home.user) == old(home.At(home.user))
    ensures AllResettled(old(home.Home()), home.Home(), home.reliable)
    ensures found ==> exists n :: 0 <= n < |entries| && KnownAt(entries[n].binding, old(home.At(entries[n].binding)), job)
    ensures (exists n :: 0 <= n < |entries| && KnownAt(entries[n].binding, old(home.At(entries[n].binding)), job))
      ==> found || unreadable
    ensures (exists n :: 0 <= n < |entries| && !Readable(entries[n].binding, old(home.At(entries[n].binding)), job)) ==> unreadable
    ensures home.reliable ==>
      && (found <==> exists n :: 0 <= n < |entries| && KnownAt(entries[n].binding, old(home.At(entries[n].binding)), job))
      && (unreadable <==> exists n :: 0 <= n < |entries| && !Readable(entries[n].binding, old(home.At(entries[n].binding)), job))
  {
    hide Inv, Reaches, Abs, Resettled, KnownAt, Readable;
    found, unreadable := false, false;
    NothingResettled(home);
    ghost var w := home.Home();
    for k := 0 to |entries|
      invariant home.Valid() && Calm(old(home.log), home.log)
      invariant home.At(home.user) == w.At(home.user)
      invariant AllResettled(w, home.Home(), home.reliable)
      invariant found ==> exists n :: 0 <= n < k && KnownAt(entries[n].binding, w.At(entries[n].binding), job)
      invariant forall n :: 0 <= n < k && KnownAt(entries[n].binding, w.At(entries[n].binding), job) ==> found || unreadable
      invariant forall n :: 0 <= n < k && !Readable(entries[n].binding, w.At(entries[n].binding), job) ==> unreadable
      invariant home.reliable ==>
        && (forall n :: 0 <= n < k && KnownAt(entries[n].binding, w.At(entries[n].binding), job) ==> found)
        && (unreadable ==> exists n :: 0 <= n < k && !Readable(entries[n].binding, w.At(entries[n].binding), job))
    {
      ghost var v := home.Home();
      var b := entries[k].binding;
      var here, hidden := Probe(home, b, job);
      ResettledOne(w, v, home.Home(), b, home.reliable);
      Elsewhere(home.user, v.disks, home.disks, b, home.user);
      ResettledProbe(b, w.At(b), v.At(b), home.reliable, job);
      found, unreadable := found || here, unreadable || hidden;
    }
  }

  lemma ResettledProbe(b: Binding, d: Disk, e: Disk, reliable: bool, job: Job)
    requires Resettled(d, e, reliable)
    ensures KnownAt(b, e, job) ==> KnownAt(b, d, job)
    ensures KnownAt(b, d, job) ==> KnownAt(b, e, job) || !Readable(b, e, job)
    ensures Readable(b, e, job) ==> Readable(b, d, job)
    ensures reliable ==> (KnownAt(b, e, job) <==> KnownAt(b, d, job)) && (Readable(b, e, job) <==> Readable(b, d, job))
  {
    hide Inv, Abs, Stuck, Recovered;
    ResettledHealth(d, e, reliable, job);
    ResettledContent(d, e, reliable);
  }

  /** Write the registry built in memory, or the same index again when nothing changed. */
  method WriteBack(home: SettingsHome, registry: seq<Entry>, bumps: nat) returns (out: Result<()>)
    requires home.Valid() && DistinctEntries(registry) && (bumps == 0 ==> registry == home.Home().Registry())
    requires OnlyWorkspaces(home.Home(), registry) && RegistryCovers(home.Home(), registry)
    modifies home`disks, home`log
    ensures home.Valid() && Calm(old(home.log), home.log)
    ensures home.disks - {home.user} == old(home.disks) - {home.user}
    ensures Same(old(home.At(home.user)), home.At(home.user))
    ensures out.Ok? ==> home.Home().Registry() == registry
    ensures home.At(home.user).Idx().records == old(home.At(home.user)).Idx().records
    ensures home.At(home.user).vault == old(home.At(home.user)).vault
    ensures home.reliable ==> out.Ok?
  {
    hide Inv, Reaches, Abs, RegistryCovers;
    home.Known(home.user);
    if bumps > 0 {
      out := home.WriteRegistry(registry, bumps);
    } else {
      var written: bool := *;
      out := if home.reliable || written then Ok(()) else Err(StorageUnavailable);
    }
  }

  datatype Report = Report(revision: nat, removed: seq<(Binding, SettingId)>, partial: seq<Binding>)

  /** What the report of an uninstall from `w` to `v` says: a scope it does not list as partial holds
      nothing of the plugin, and all its records are listed as removed; what is listed as removed
      was there and is gone; every live registered scope that cannot be finished is listed, and
      without failures no other; and the registry says of each live scope how it was left. */
  ghost predicate Reported(w: World, v: World, job: Job, reliable: bool, report: Report) {
    && (forall c :: c !in report.partial ==> PluginGone(v.At(c), job.plugin) && ListsAll(report.removed, c, w.At(c), job.plugin))
    && (forall c :: c !in report.partial && Covers(w.Registry(), c) ==> Finishable(c, w.At(c), job))
    && (forall c :: c in report.partial ==> c == w.user || Covers(w.Registry(), c))
    && (reliable ==> forall c :: c in report.partial ==> Covers(w.Registry(), c) && !Finishable(c, w.At(c), job))
    && (forall e :: e in w.Registry() && e.state != Removed ==> Entered(w, v, e, job.plugin, v.Registry(), report.partial))
    && HomeRemovals(w, v, report.removed, job.plugin)
    && report.revision == v.At(v.user).Idx().revision
  }

  ghost predicate KnownSomewhere(w: World, job: Job) {
    || Knows(w.At(w.user).Idx(), job.plugin)
    || exists c :: Covers(w.Registry(), c) && KnownAt(c, w.At(c), job)
  }

  /** What the uninstall checks before it changes anything. */
  ghost predicate Starts(w: World, job: Job, expected: nat) {
    && Healthy(w.At(w.user), job) && Recovered(w.At(w.user)).Idx().revision == expected
    && KnownSomewhere(w, job)
  }

  ghost predicate AllFinishable(w: World, job: Job) {
    forall c :: Covers(w.Registry(), c) ==> Finishable(c, w.At(c), job)
  }

  lemma KnownByEntry(w: World, job: Job)
    ensures var live := LiveEntries(w.Registry());
      KnownSomewhere(w, job) <==>
        || Knows(w.At(w.user).Idx(), job.plugin)
        || exists n :: 0 <= n < |live| && KnownAt(live[n].binding, w.At(live[n].binding), job)
  {
    hide KnownAt, Knows, Covers;
    var live := LiveEntries(w.Registry());
    if c :| Covers(w.Registry(), c) && KnownAt(c, w.At(c), job) { LiveCovers(w.Registry(), c); }
    if n :| 0 <= n < |live| && KnownAt(live[n].binding, w.At(live[n].binding), job) { LiveCovers(w.Registry(), live[n].binding); }
  }

  lemma ReadResettles(d: Disk, e: Disk, reliable: bool)
    requires Same(d, e) && Recovered(e) == Recovered(d) && (Stuck(d) ==> e == d)
    requires reliable && !Stuck(d) ==> e == Recovered(d)
    ensures Resettled(d, e, reliable)
  {
    hide Inv, Abs, Stuck, Recovered;
  }

  lemma SameKnowledge(d: Disk, job: Job)
    ensures Knows(Recovered(d).Idx(), job.plugin) <==> Knows(d.Idx(), job.plugin)
  {
    RecoveredIndex(d);
  }

  /** The user scope, recovered and checked: the first part of `uninstall_plugin`. */
  method CheckUser(home: SettingsHome, job: Job, expected: nat) returns (out: Result<Index>)
    requires home.Valid()
    modifies home`disks, home`log
    ensures home.Valid() && Calm(old(home.log), home.log)
    ensures home.disks - {home.user} == old(home.disks) - {home.user}
    ensures AllResettled(old(home.Home()), home.Home(), home.reliable)
    ensures out.Ok? ==>
      && Quiet(home.At(home.user)) && home.At(home.user).index == Some(out.value)
      && out.value.registry == old(home.Home()).Registry()
      && Healthy(old(home.At(home.user)), job) && Recovered(old(home.At(home.user))).Idx().revision == expected
      && (Knows(out.value, job.plugin) <==> Knows(old(home.At(home.user)).Idx(), job.plugin))
    ensures home.reliable && Starts(old(home.Home()), job, expected) ==> out.Ok?
  {
    hide Inv, Reaches, Abs, Stuck, Recovered, Resettled, Knows, KnownSomewhere, AllResettled, Quiet;
    ghost var w := home.Home();
    var user := home.user;
    NothingResettled(home);
    RecoveredIndex(w.At(user));
    SameKnowledge(w.At(user), job);
    var read := home.ReadOrRecoverLocked(user);
    ReadResettles(w.At(user), home.At(user), home.reliable);
    ResettledOne(w, w, home.Home(), user, home.reliable);
    if read.Err? { return Err(read.error); }
    if read.value.None? { return Err(RecordNotFound); }
    var index := read.value.value;
    if index.revision != expected { return Err(RevisionConflict); }
    KnownByEntry(w, job);
    if !Knows(index, job.plugin) && LiveEntries(index.registry) == [] { return Err(RecordNotFound); }
    if job.package.Some? && exists r :: r in index.records && r.id.plugin == job.plugin && r.id.package != job.package.value {
      return Err(UninstallConflict);
    }
    return Ok(index);
  }

  lemma ResettledWorlds(w: World, v: World, u: World, reliable: bool)
    requires AllResettled(w, v, reliable) && AllResettled(v, u, reliable)
    ensures AllResettled(w, u, reliable)
  {
    hide Resettled;
    forall c ensures Resettled(w.At(c), u.At(c), reliable) { ResettledTwice(w.At(c), v.At(c), u.At(c), reliable); }
  }

  lemma EmptyReport(w: World, v: World, job: Job, reliable: bool, report: Report)
    requires Reported(w, v, job, reliable, report)
    ensures report.partial == [] ==> AllFinishable(w, job)
    ensures reliable && AllFinishable(w, job) ==> report.partial == []
  {
    hide PluginGone, ListsAll, Covers, Finishable, Entered, HomeRemovals;
    if report.partial != [] {
      var c := report.partial[0];
      assert c in report.partial;
      assert reliable ==> Covers(w.Registry(), c) && !Finishable(c, w.At(c), job);
    }
  }

  // What was said of the recovered scopes holds of the scopes as they were before.
  lemma ReportedFrom(w: World, u: World, v: World, job: Job, reliable: bool, report: Report)
    requires AllResettled(w, u, reliable) && w.user == u.user && Reported(u, v, job, reliable, report)
    ensures Reported(w, v, job, reliable, report)
  {
    hide Resettled, PluginGone, Covers, Healthy, Knows, HasState;
    forall c
      ensures w.At(c).Idx().registry == u.At(c).Idx().registry
      ensures forall r :: r in w.At(c).Idx().records <==> r in u.At(c).Idx().records
      ensures Healthy(u.At(c), job) ==> Healthy(w.At(c), job)
      ensures reliable && Healthy(w.At(c), job) ==> Healthy(u.At(c), job)
      ensures Knows(u.At(c).Idx(), job.plugin) <==> Knows(w.At(c).Idx(), job.plugin)
    {
      ResettledContent(w.At(c), u.At(c), reliable);
      ResettledHealth(w.At(c), u.At(c), reliable, job);
    }
    assert w.Registry() == u.Registry();
    forall p | p in report.removed ensures Left(w, v, p, job.plugin) { assert Left(u, v, p, job.plugin); }
  }

  // Every scope but the user's: dealt with in the loop, or never occupied.
  lemma SummaryAt(u: World, v: World, job: Job, reliable: bool, l: Ledger, c: Binding)
    requires WorldInv(u) && c != u.user
    requires Untouched(u, v, LiveEntries(u.Registry()))
    requires AllDealt(u, v, LiveEntries(u.Registry()), |LiveEntries(u.Registry())|, job, reliable, l)
    ensures c !in l.partial ==> PluginGone(v.At(c), job.plugin) && ListsAll(l.removed, c, u.At(c), job.plugin)
    ensures c !in l.partial && Covers(u.Registry(), c) ==> Finishable(c, u.At(c), job)
    ensures c in l.partial ==> Covers(u.Registry(), c) && (reliable ==> !Finishable(c, u.At(c), job))
  {
    hide Inv, Finishable, PluginGone, Entered, Occupied, DisksInv, Belonging, OneRegistry;
    var live := LiveEntries(u.Registry());
    LiveCovers(u.Registry(), c);
    if n :| 0 <= n < |live| && live[n].binding == c {
      assert Dealt(u, v, live[n], job, reliable, l);
    } else {
      VacantScope(u, c);
      VacantPluginGone(u.At(c), job.plugin);
      VacantLists(u.At(c), c, l.removed, job.plugin);
    }
  }

  lemma VacantScope(w: World, c: Binding)
    requires WorldInv(w) && c != w.user && !Covers(w.Registry(), c)
    ensures !Occupied(w.At(c))
  {
    EmptyIsVacant();
  }

  lemma VacantLists(d: Disk, c: Binding, removed: seq<(Binding, SettingId)>, plugin: string)
    requires !Occupied(d)
    ensures ListsAll(removed, c, d, plugin)
  {
  }

  // Entries after the registry has been written back.
  lemma SummaryEntries(u: World, v: World, x: World, job: Job, reliable: bool, l: Ledger, partial: seq<Binding>)
    requires WorldInv(u) && forall c :: c != u.user ==> x.At(c) == v.At(c)
    requires forall c :: c != u.user ==> (c in partial <==> c in l.partial)
    requires AllDealt(u, v, LiveEntries(u.Registry()), |LiveEntries(u.Registry())|, job, reliable, l)
    requires x.Registry() == l.registry
    ensures forall e :: e in u.Registry() && e.state != Removed ==> Entered(u, x, e, job.plugin, x.Registry(), partial)
  {
    hide Inv, Finishable, PluginGone, ListsAll, Knows, HasState, WorldInv;
    LiveAreElsewhere(u);
    forall e | e in u.Registry() && e.state != Removed ensures Entered(u, x, e, job.plugin, x.Registry(), partial) {
      var live := LiveEntries(u.Registry());
      assert e in live;
      var n :| 0 <= n < |live| && live[n] == e;
      assert Dealt(u, v, live[n], job, reliable, l);
    }
  }

  // The four stages of an uninstall: `w` at its start, `u` after the user scope, `v` after the
  // workspaces, `x` after the registry.
  lemma Summary(w: World, u: World, v: World, x: World, job: Job, reliable: bool, l: Ledger,
                mine: seq<(Binding, SettingId)>, clean: bool, report: Report)
    requires WorldInv(u) && w.user == u.user == v.user == x.user
    requires w.disks - {w.user} == u.disks - {w.user} && v.disks - {w.user} == x.disks - {w.user}
    requires u.Registry() == w.Registry() && x.Registry() == l.registry && v.At(w.user) == u.At(w.user)
    requires x.At(w.user).Idx().records == v.At(w.user).Idx().records && x.At(w.user).vault == v.At(w.user).vault
    requires Untouched(u, v, LiveEntries(u.Registry()))
    requires AllDealt(u, v, LiveEntries(u.Registry()), |LiveEntries(u.Registry())|, job, reliable, l)
    requires HomeRemovals(w, u, mine, job.plugin) && HomeRemovals(u, v, l.removed, job.plugin)
    requires clean ==> PluginGone(u.At(w.user), job.plugin) && ListsAll(mine, w.user, w.At(w.user), job.plugin)
    requires reliable ==> clean
    requires report == Report(x.At(w.user).Idx().revision, mine + l.removed, (if clean then [] else [w.user]) + l.partial)
    requires HomeKeeps(w.user, w.disks, u.disks, job.plugin) && HomeKeeps(w.user, u.disks, v.disks, job.plugin)
    requires HomeKeeps(w.user, v.disks, x.disks, job.plugin)
    ensures Reported(w, x, job, reliable, report)
  {
    hide Inv, PluginGone, ListsAll, Covers, Finishable, Entered, HomeRemovals, HomeKeeps, Untouched, AllDealt, Knows, WorldInv;
    var user := w.user;
    forall c | c != user ensures w.At(c) == u.At(c) && v.At(c) == x.At(c) {
      Elsewhere(user, w.disks, u.disks, user, c);
      Elsewhere(user, v.disks, x.disks, user, c);
    }
    SummaryScopes(w, u, v, x, job, reliable, l, mine, clean, report);
    assert forall c :: c != user ==> (c in report.partial <==> c in l.partial);
    SummaryEntries(u, v, x, job, reliable, l, report.partial);
    EntriesFrom(w, u, x, job.plugin, report.partial);
    SummaryRemovals(w, u, v, x, mine, l.removed, job.plugin);
  }

  // The entries of workspaces do not depend on the user scope.
  lemma EntriesFrom(w: World, u: World, x: World, plugin: string, partial: seq<Binding>)
    requires WorldInv(u) && u.Registry() == w.Registry() && w.user == u.user
    requires forall c :: c != w.user ==> w.At(c) == u.At(c)
    requires forall e :: e in u.Registry() && e.state != Removed ==> Entered(u, x, e, plugin, x.Registry(), partial)
    ensures forall e :: e in w.Registry() && e.state != Removed ==> Entered(w, x, e, plugin, x.Registry(), partial)
  {
    hide Knows, HasState, WorkspaceName, DisksInv, Belonging, RegistryCovers;
  }

  lemma SummaryRemovals(w: World, u: World, v: World, x: World, mine: seq<(Binding, SettingId)>,
                        theirs: seq<(Binding, SettingId)>, plugin: string)
    requires w.user == u.user == v.user == x.user
    requires HomeRemovals(w, u, mine, plugin) && HomeRemovals(u, v, theirs, plugin)
    requires HomeKeeps(w.user, w.disks, u.disks, plugin) && HomeKeeps(w.user, u.disks, v.disks, plugin)
    requires HomeKeeps(w.user, v.disks, x.disks, plugin)
    ensures HomeRemovals(w, x, mine + theirs, plugin)
  {
    hide Keeps, Left;
    HomeRemovalsStay(w, u, v, mine, plugin);
    HomeRemovalsStay(w, v, x, mine, plugin);
    HomeRemovalsStay(u, v, x, theirs, plugin);
    HomeRemovalsSooner(w, u, x, theirs, plugin);
    MoreRemovals(w, x, mine, theirs, plugin);
  }

  lemma HomeRemovalsSooner(w: World, u: World, x: World, removed: seq<(Binding, SettingId)>, plugin: string)
    requires HomeRemovals(u, x, removed, plugin) && w.user == u.user && HomeKeeps(w.user, w.disks, u.disks, plugin)
    ensures HomeRemovals(w, x, removed, plugin)
  {
    hide Keeps;
    forall p | p in removed ensures Left(w, x, p, plugin) {
      assert Left(u, x, p, plugin) && Keeps(w.At(p.0), u.At(p.0), plugin);
      KeepsFewer(w.At(p.0), u.At(p.0), plugin);
    }
  }

  lemma SummaryScopes(w: World, u: World, v: World, x: World, job: Job, reliable: bool, l: Ledger,
                      mine: seq<(Binding, SettingId)>, clean: bool, report: Report)
    requires WorldInv(u) && w.user == u.user == v.user == x.user
    requires forall c :: c != w.user ==> w.At(c) == u.At(c) && v.At(c) == x.At(c)
    requires u.Registry() == w.Registry() && v.At(w.user) == u.At(w.user)
    requires x.At(w.user).Idx().records == v.At(w.user).Idx().records && x.At(w.user).vault == v.At(w.user).vault
    requires Untouched(u, v, LiveEntries(u.Registry()))
    requires AllDealt(u, v, LiveEntries(u.Registry()), |LiveEntries(u.Registry())|, job, reliable, l)
    requires clean ==> PluginGone(u.At(w.user), job.plugin) && ListsAll(mine, w.user, w.At(w.user), job.plugin)
    requires reliable ==> clean
    requires report.removed == mine + l.removed && report.partial == (if clean then [] else [w.user]) + l.partial
    ensures forall c :: c !in report.partial ==> PluginGone(x.At(c), job.plugin) && ListsAll(report.removed, c, w.At(c), job.plugin)
    ensures forall c :: c !in report.partial && Covers(w.Registry(), c) ==> Finishable(c, w.At(c), job)
    ensures forall c :: c in report.partial ==> c == w.user || Covers(w.Registry(), c)
    ensures reliable ==> forall c :: c in report.partial ==> Covers(w.Registry(), c) && !Finishable(c, w.At(c), job)
  {
    hide Inv, PluginGone, ListsAll, Covers, Finishable, Untouched, AllDealt, WorldInv;
    UserIsNotLive(u, v, job, reliable, l);
    GoneKept(v.At(w.user), x.At(w.user), job.plugin);
    forall c
      ensures c !in report.partial ==> PluginGone(x.At(c), job.plugin) && ListsAll(report.removed, c, w.At(c), job.plugin)
      ensures c !in report.partial && Covers(w.Registry(), c) ==> Finishable(c, w.At(c), job)
      ensures c in report.partial ==> c == w.user || Covers(w.Registry(), c)
      ensures reliable && c in report.partial ==> Covers(w.Registry(), c) && !Finishable(c, w.At(c), job)
    {
      ListsMore(mine, l.removed, c, w.At(c), job.plugin);
      if c != w.user { SummaryAt(u, v, job, reliable, l, c); }
    }
  }

  lemma ListsMore(first: seq<(Binding, SettingId)>, second: seq<(Binding, SettingId)>, c: Binding, d: Disk, plugin: string)
    ensures ListsAll(first, c, d, plugin) || ListsAll(second, c, d, plugin) ==> ListsAll(first + second, c, d, plugin)
  {
  }

  lemma UserIsNotLive(u: World, v: World, job: Job, reliable: bool, l: Ledger)
    requires WorldInv(u)
    requires AllDealt(u, v, LiveEntries(u.Registry()), |LiveEntries(u.Registry())|, job, reliable, l)
    ensures u.user !in l.partial && !Covers(u.Registry(), u.user)
  {
    hide Dealt, Inv, Occupied;
    LiveAreElsewhere(u);
    LiveCovers(u.Registry(), u.user);
  }

  lemma GoneKept(d: Disk, e: Disk, plugin: string)
    requires d.Idx().records == e.Idx().records && d.vault == e.vault
    ensures PluginGone(d, plugin) ==> PluginGone(e, plugin)
  {
  }

  /** The user scope's records of the plugin. */
  method UninstallUser(home: SettingsHome, plugin: string) returns (out: Result<bool>, mine: seq<SettingId>)
    requires home.Valid() && Quiet(home.At(home.user)) && home.At(home.user).index.Some?
    modifies home`disks, home`log, home`nextToken
    ensures home.Valid() && old(home.log) <= home.log
    ensures home.disks - {home.user} == old(home.disks) - {home.user}
    ensures HomeKeeps(home.user, old(home.disks), home.disks, plugin)
    ensures out.Ok? ==> home.Home().Registry() == old(home.Home()).Registry()
    ensures out == Ok(true) ==>
      PluginGone(home.At(home.user), plugin) && ListsAll(Tag(home.user, mine), home.user, old(home.At(home.user)), plugin)
    ensures HomeRemovals(old(home.Home()), home.Home(), Tag(home.user, mine), plugin)
    ensures home.reliable ==> out == Ok(true)
  {
    hide Inv, Reaches, Abs, Keeps, Recovered, Quiet, PluginGone, DistinctEntries, Lists, Removals, ListsAll, HomeRemovals, Tag;
    HomeKeepsAtFirst(home, plugin);
    ghost var w := home.Home();
    var user := home.user;
    home.Known(user);
    IndexShape(home.At(user));
    var targets := RecordsOf(home.At(user).Idx().records, plugin);
    out, mine := RemoveTargets(home, user, plugin, targets, true);
    HomeKeepsStep(user, w.disks, w.disks, home.disks, user, plugin);
    TaggedRemovals(w, home.Home(), user, mine, plugin);
    if out == Ok(true) {
      home.Known(user);
      QuietPluginGone(home.At(user), plugin);
      TaggedLists([], user, mine, w.At(user), plugin);
      assert [] + Tag(user, mine) == Tag(user, mine);
    }
  }

  /** The mutating part: the user scope first, then the workspaces, then the registry. */
  method UninstallKnown(home: SettingsHome, job: Job) returns (out: Result<Report>)
    requires home.Valid() && Quiet(home.At(home.user)) && home.At(home.user).index.Some?
    modifies home`disks, home`log, home`nextToken
    ensures home.Valid() && old(home.log) <= home.log
    ensures HomeKeeps(home.user, old(home.disks), home.disks, job.plugin)
    ensures out.Ok? ==> Reported(old(home.Home()), home.Home(), job, home.reliable, out.value)
    ensures home.reliable ==> out.Ok?
  {
    hide Inv, Reaches, Abs, Keeps, Recovered, Quiet, PluginGone, LoopInv, RegistryCovers, Covers, DistinctEntries, HomeKeeps,
         Untouched, AllDealt, HomeRemovals, ListsAll, Reported, OnlyWorkspaces;
    ghost var w := home.Home();
    var user := home.user;
    var clean, mine := UninstallUser(home, job.plugin);
    if clean.Err? { return Err(clean.error); }
    ghost var u := home.Home();
    home.Known(user);
    IndexShape(home.At(user));
    var base := home.At(user).Idx();
    var entries := LiveEntries(base.registry);
    LoopStart(u, entries);
    var l := UninstallWorkspaces(home, entries, job, base);
    ghost var v := home.Home();
    HomeKeepsTwice(user, w.disks, u.disks, v.disks, job.plugin);
    LoopEnd(v, l.registry, entries);
    HomeKeepsAtFirst(home, job.plugin);
    var written := WriteBack(home, l.registry, l.bumps);
    KeepsSame(v.At(user), home.At(user), job.plugin);
    HomeKeepsStep(user, v.disks, v.disks, home.disks, user, job.plugin);
    HomeKeepsTwice(user, w.disks, v.disks, home.disks, job.plugin);
    if written.Err? { return Err(written.error); }
    var report := Report(home.At(user).Idx().revision, Tag(user, mine) + l.removed,
                         (if clean.value then [] else [user]) + l.partial);
    Summary(w, u, v, home.Home(), job, home.reliable, l, Tag(user, mine), clean.value, report);
    return Ok(report);
  }

  /** `uninstall_plugin`. Without failures it succeeds exactly when its checks pass, and then nothing
      is partial exactly when every live registered scope can be finished. */
  method UninstallPlugin(home: SettingsHome, job: Job, expected: nat) returns (out: Result<Report>)
    requires home.Valid()
    modifies home`disks, home`log, home`nextToken
    ensures home.Valid() && old(home.log) <= home.log
    ensures HomeKeeps(home.user, old(home.disks), home.disks, job.plugin)
    ensures out.Ok? ==> Starts(old(home.Home()), job, expected)
    ensures out.Ok? ==> Reported(old(home.Home()), home.Home(), job, home.reliable, out.value)
    ensures home.reliable ==> (out.Ok? <==> Starts(old(home.Home()), job, expected))
    ensures home.reliable ==>
      (out.Ok? && out.value.partial == [] <==> Starts(old(home.Home()), job, expected) && AllFinishable(old(home.Home()), job))
  {
    hide Inv, Reaches, Abs, Keeps, Quiet, Recovered, Resettled, KnownSomewhere, Reported, AllFinishable, HomeKeeps, Knows,
         AllResettled, KnownAt, Readable, Healthy;
    ghost var w := home.Home();
    var user := home.user;
    home.Known(user);
    LiveAreElsewhere(w);
    KnownByEntry(w, job);
    var checked := CheckUser(home, job, expected);
    ResettledKeeps(w, home.Home(), home.reliable, job.plugin);
    if checked.Err? { return Err(checked.error); }
    var entries := LiveEntries(checked.value.registry);
    ghost var ready := home.Home();
    forall n | 0 <= n < |entries| ensures ready.At(entries[n].binding) == w.At(entries[n].binding) {
      assert entries[n] in entries;
      Elsewhere(user, w.disks, ready.disks, user, entries[n].binding);
    }
    if !Knows(checked.value, job.plugin) {
      var elsewhere, unreadable := Preflight(home, entries, job);
      ResettledWorlds(w, ready, home.Home(), home.reliable);
      ResettledKeeps(w, home.Home(), home.reliable, job.plugin);
      if !elsewhere { return Err(if unreadable then StorageUnavailable else RecordNotFound); }
    }
    ghost var start := home.Home();
    out := UninstallKnown(home, job);
    HomeKeepsTwice(user, w.disks, start.disks, home.disks, job.plugin);
    if out.Ok? {
      ReportedFrom(w, start, home.Home(), job, home.reliable, out.value);
      EmptyReport(w, home.Home(), job, home.reliable, out.value);
    }
  }

  lemma EmptyHomeInv(user: Binding)
    ensures WorldInv(World(user, map[]))
  {
  }

  lemma MoreCovers(w: World, registry: seq<Entry>, more: seq<Entry>)
    requires RegistryCovers(w, registry) && forall c :: Covers(registry, c) ==> Covers(more, c)
    ensures RegistryCovers(w, more)
  {
    hide Covers, Occupied;
  }

  /** A crash between putting a workspace on record and the first write of its index leaves a scope
      no uninstall can finish. Any run of the home in which a workspace has no index yet can be
      continued by that one registry write; the user scope's settings are as they were, and whoever
      uninstalls anything from there is told that the scope is partial, failures or not. */
  lemma UnindexedIsPartial(user: Binding, log: seq<Event>, w: World, b: Binding) returns (e: Event)
    requires Reaches(World(user, map[]), log, w)
    requires WorkspaceName(b) && b != user && w.At(b).index.None?
    ensures Allowed(w, e) && Reaches(World(user, map[]), log + [e], Happen(w, e))
    ensures forall c :: c != user ==> Happen(w, e).At(c) == w.At(c)
    ensures Happen(w, e).At(user).Idx().records == w.At(user).Idx().records
    ensures Happen(w, e).At(user).Idx().tombstones == w.At(user).Idx().tombstones
    ensures forall v, job, reliable, report :: Reported(Happen(w, e), v, job, reliable, report) ==> b in report.partial
  {
    hide Inv, Reaches, RegistryCovers, UpsertEntry, PluginGone, ListsAll, Entered, HomeRemovals;
    RunKeepsInv(World(user, map[]), log, w) by { EmptyHomeInv(user); }
    var registry := w.Registry();
    var entry := Entry(b, Registering, w.At(user).Idx().revision + 1);
    RegistryIsDistinct(w.At(user)) by { EmptyDiskInv(); }
    UpsertCovers(registry, entry, b);
    forall c ensures Covers(registry, c) ==> Covers(UpsertEntry(registry, entry), c) { UpsertCovers(registry, entry, c); }
    e := Event(user, Enroll(UpsertEntry(registry, entry), 1));
    MoreCovers(w, registry, UpsertEntry(registry, entry));
    ReachesOneMore(World(user, map[]), log, w, e);
  }
}
