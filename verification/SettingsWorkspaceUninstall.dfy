/** Uninstalling a plugin from every registered workspace scope, while the registry of the user
    index is rewritten in memory. */
module SettingsWorkspaceUninstall {
  import opened SettingsModel
  import opened SettingsProtocol
  import opened SettingsHistory
  import opened SettingsAtomicity
  import opened SettingsRecovery
  import opened SettingsStore
  import opened SettingsScopeUninstall

  /** Across all scopes, nothing was added and only records of this plugin left. */
  ghost predicate HomeKeeps(user: Binding, before: map<Binding, Disk>, after: map<Binding, Disk>, plugin: string) {
    forall c :: Keeps(World(user, before).At(c), World(user, after).At(c), plugin)
  }

  lemma HomeKeepsStep(user: Binding, first: map<Binding, Disk>, before: map<Binding, Disk>,
                      after: map<Binding, Disk>, b: Binding, plugin: string)
    requires HomeKeeps(user, first, before, plugin)
    requires before - {b} == after - {b}
    requires Keeps(World(user, before).At(b), World(user, after).At(b), plugin)
    ensures HomeKeeps(user, first, after, plugin)
  {
    hide Keeps;
    forall c ensures Keeps(World(user, first).At(c), World(user, after).At(c), plugin) {
      Elsewhere(user, before, after, b, c);
      if c == b {
        KeepsTwice(World(user, first).At(c), World(user, before).At(c), World(user, after).At(c), plugin);
      }
    }
  }

  lemma HomeKeepsTwice(user: Binding, a: map<Binding, Disk>, b: map<Binding, Disk>, c: map<Binding, Disk>, plugin: string)
    requires HomeKeeps(user, a, b, plugin) && HomeKeeps(user, b, c, plugin)
    ensures HomeKeeps(user, a, c, plugin)
  {
    hide Keeps;
    forall x ensures Keeps(World(user, a).At(x), World(user, c).At(x), plugin) {
      KeepsTwice(World(user, a).At(x), World(user, b).At(x), World(user, c).At(x), plugin);
    }
  }

  lemma HomeKeepsAtFirst(home: SettingsHome, plugin: string)
    requires home.Valid()
    ensures HomeKeeps(home.user, home.disks, home.disks, plugin)
  {
    hide Inv, Abs, Keeps;
    var w := home.Home();
    forall c ensures Keeps(w.At(c), w.At(c), plugin) {
      home.Known(c);
      KeepsSame(w.At(c), w.At(c), plugin);
    }
  }

  function Tag(b: Binding, ids: seq<SettingId>): seq<(Binding, SettingId)> {
    seq(|ids|, k requires 0 <= k < |ids| => (b, ids[k]))
  }

  function LiveEntries(es: seq<Entry>): (live: seq<Entry>)
    ensures forall e :: e in live <==> e in es && e.state != Removed
    ensures DistinctEntries(es) ==> DistinctEntries(live)
  {
    if es == [] then []
    else
      var last := es[|es| - 1];
      var front := LiveEntries(es[..|es| - 1]);
      assert es == es[..|es| - 1] + [last];
      if last.state != Removed then front + [last] else front
  }

  ghost predicate Mentions(es: seq<Entry>, c: Binding) { exists n :: 0 <= n < |es| && es[n].binding == c }

  lemma LiveCovers(registry: seq<Entry>, c: Binding)
    ensures Covers(registry, c) <==> Mentions(LiveEntries(registry), c)
  {
    var live := LiveEntries(registry);
    if Covers(registry, c) {
      var e :| e in registry && e.binding == c && e.state != Removed;
      assert e in live;
      var n :| 0 <= n < |live| && live[n] == e;
    }
    if Mentions(live, c) {
      var n :| 0 <= n < |live| && live[n].binding == c;
      assert live[n] in live;
    }
  }

  lemma LiveAreElsewhere(w: World)
    requires WorldInv(w)
    ensures forall e :: e in LiveEntries(w.Registry()) ==> e.binding != w.user
  {
  }

  /** What the workspace loop has in hand: the registry it is rebuilding in memory, by how much its
      revision has gone up, and the two lists it reports. */
  datatype Ledger = Ledger(
    registry: seq<Entry>, bumps: nat, removed: seq<(Binding, SettingId)>, partial: seq<Binding>)

  function AfterOutcome(registry: seq<Entry>, entry: Entry, outcome: ScopeOutcome, revision: nat): seq<Entry> {
    match outcome
    case Failed => ReplaceEntry(registry, entry.(state := Partial, registeredRevision := revision))
    case Emptied => ReplaceEntry(registry, entry.(state := Removed, registeredRevision := revision))
    case Kept => registry
  }

  /** The ledger with one more scope in it; every change of an entry counts one revision. */
  function AfterScope(l: Ledger, entry: Entry, outcome: ScopeOutcome, gone: seq<SettingId>, revision: nat): Ledger {
    Ledger(AfterOutcome(l.registry, entry, outcome, revision + l.bumps + 1),
           if outcome == Kept then l.bumps else l.bumps + 1,
           l.removed + Tag(entry.binding, gone),
           if outcome == Failed then l.partial + [entry.binding] else l.partial)
  }

  /** The registry being rebuilt covers every occupied scope and still holds the entries to come. */
  ghost predicate LoopInv(w: World, registry: seq<Entry>, entries: seq<Entry>, k: nat)
    requires k <= |entries|
  {
    && DistinctEntries(registry) && OnlyWorkspaces(w, registry) && RegistryCovers(w, registry)
    && (forall n :: k <= n < |entries| ==> entries[n] in registry && entries[n].state != Removed)
  }

  /** The entry of a scope dealt with: `partial` when it is reported, `removed` when nothing is left
      in a scope that knew the plugin, and otherwise as it was. */
  ghost predicate Entered(w: World, v: World, entry: Entry, plugin: string, registry: seq<Entry>, partial: seq<Binding>) {
    var b := entry.binding;
    if b in partial then HasState(registry, b, Partial)
    else if Knows(w.At(b).Idx(), plugin) && v.At(b).Idx().records == [] then HasState(registry, b, Removed)
    else entry in registry
  }

  /** Every record the plugin had in the scope is listed as removed. */
  ghost predicate ListsAll(removed: seq<(Binding, SettingId)>, b: Binding, d: Disk, plugin: string) {
    forall r :: r in d.Idx().records && r.id.plugin == plugin ==> (b, r.id) in removed
  }

  /** A scope with this entry has been dealt with: either it holds nothing of the plugin any more,
      and it could be finished, or it is reported; without failures only if it had to be. */
  ghost predicate Dealt(w: World, v: World, entry: Entry, job: Job, reliable: bool, l: Ledger) {
    var b := entry.binding;
    && Entered(w, v, entry, job.plugin, l.registry, l.partial)
    && (b !in l.partial ==>
          Finishable(b, w.At(b), job) && PluginGone(v.At(b), job.plugin) && ListsAll(l.removed, b, w.At(b), job.plugin))
    && (b in l.partial && reliable ==> !Finishable(b, w.At(b), job))
  }

  ghost predicate AllDealt(w: World, v: World, entries: seq<Entry>, k: nat, job: Job, reliable: bool, l: Ledger)
    requires k <= |entries|
  {
    && (forall n :: 0 <= n < k ==> Dealt(w, v, entries[n], job, reliable, l))
    && (forall c :: c in l.partial ==> exists n :: 0 <= n < k && entries[n].binding == c)
    && (l.partial != [] ==> l.bumps > 0)
  }

  /** What is listed as removed was a record of the plugin and is in its index no more. */
  ghost predicate Left(w: World, v: World, p: (Binding, SettingId), plugin: string) {
    exists r :: r in w.At(p.0).Idx().records && r.id == p.1 && r.id.plugin == plugin && r !in v.At(p.0).Idx().records
  }

  ghost predicate HomeRemovals(w: World, v: World, removed: seq<(Binding, SettingId)>, plugin: string) {
    forall p :: p in removed ==> Left(w, v, p, plugin)
  }

  lemma HomeRemovalsStay(w: World, v: World, u: World, removed: seq<(Binding, SettingId)>, plugin: string)
    requires HomeRemovals(w, v, removed, plugin) && v.user == u.user && HomeKeeps(v.user, v.disks, u.disks, plugin)
    ensures HomeRemovals(w, u, removed, plugin)
  {
    hide Keeps;
    forall p | p in removed ensures Left(w, u, p, plugin) {
      assert Left(w, v, p, plugin) && Keeps(v.At(p.0), u.At(p.0), plugin);
      KeepsFewer(v.At(p.0), u.At(p.0), plugin);
    }
  }

  lemma TaggedRemovals(w: World, u: World, b: Binding, gone: seq<SettingId>, plugin: string)
    requires Removals(gone, RecordsOf(w.At(b).Idx().records, plugin), u.At(b))
    ensures HomeRemovals(w, u, Tag(b, gone), plugin)
  {
    forall p | p in Tag(b, gone) ensures Left(w, u, p, plugin) {
      var k :| 0 <= k < |gone| && Tag(b, gone)[k] == p;
      assert gone[k] in gone;
    }
  }

  lemma MoreRemovals(w: World, u: World, first: seq<(Binding, SettingId)>, second: seq<(Binding, SettingId)>, plugin: string)
    requires HomeRemovals(w, u, first, plugin) && HomeRemovals(w, u, second, plugin)
    ensures HomeRemovals(w, u, first + second, plugin)
  {
    hide Left;
  }

  lemma TaggedLists(before: seq<(Binding, SettingId)>, b: Binding, gone: seq<SettingId>, d: Disk, plugin: string)
    requires Lists(gone, RecordsOf(d.Idx().records, plugin))
    ensures ListsAll(before + Tag(b, gone), b, d, plugin)
  {
    forall r | r in d.Idx().records && r.id.plugin == plugin ensures (b, r.id) in before + Tag(b, gone) {
      assert r in RecordsOf(d.Idx().records, plugin);
      var k :| 0 <= k < |gone| && gone[k] == r.id;
      assert Tag(b, gone)[k] == (b, r.id);
    }
  }

  lemma CoverageStep(w: World, v: World, registry: seq<Entry>, entry: Entry, outcome: ScopeOutcome, revision: nat)
    requires RegistryCovers(w, registry) && Covers(registry, entry.binding)
    requires w.user == v.user && w.disks - {entry.binding} == v.disks - {entry.binding}
    requires outcome == Emptied ==> !Occupied(v.At(entry.binding))
    ensures RegistryCovers(v, AfterOutcome(registry, entry, outcome, revision))
  {
    var after := AfterOutcome(registry, entry, outcome, revision);
    forall b | b in v.disks && b != v.user && Occupied(v.disks[b]) ensures Covers(after, b) {
      Elsewhere(w.user, w.disks, v.disks, entry.binding, b);
      assert b != entry.binding ==> w.At(b) == v.At(b);
      EmptyIsVacant();
      ReplaceCovers(registry, entry.(state := Partial, registeredRevision := revision), b);
      ReplaceCovers(registry, entry.(state := Removed, registeredRevision := revision), b);
    }
  }

  lemma EmptyIsVacant()
    ensures !Occupied(EMPTY_DISK)
  {
  }

  lemma ReplaceKeepsOthers(registry: seq<Entry>, entry: Entry, e: Entry)
    ensures e.binding != entry.binding && e in registry ==> e in ReplaceEntry(registry, entry)
    ensures e in ReplaceEntry(registry, entry) ==> e == entry || e in registry
    ensures e.binding == entry.binding && e in registry ==> entry in ReplaceEntry(registry, entry)
  {
    if e in registry {
      var k :| 0 <= k < |registry| && registry[k] == e;
      assert ReplaceEntry(registry, entry)[k] in ReplaceEntry(registry, entry);
    }
  }

  // What one outcome does to the entries: its own changes as it must, the others stay.
  lemma OutcomeEntries(registry: seq<Entry>, entry: Entry, outcome: ScopeOutcome, revision: nat)
    requires entry in registry
    ensures var after := AfterOutcome(registry, entry, outcome, revision);
      && (outcome == Failed ==> HasState(after, entry.binding, Partial))
      && (outcome == Emptied ==> HasState(after, entry.binding, Removed))
      && (outcome == Kept ==> entry in after)
      && (forall e :: e in registry && e.binding != entry.binding ==> e in after)
      && (forall e :: e in after ==> e in registry || e.binding == entry.binding)
  {
    var failed := entry.(state := Partial, registeredRevision := revision);
    var emptied := entry.(state := Removed, registeredRevision := revision);
    ReplaceKeepsOthers(registry, failed, entry);
    ReplaceKeepsOthers(registry, emptied, entry);
    var after := AfterOutcome(registry, entry, outcome, revision);
    forall e
      ensures e in registry && e.binding != entry.binding ==> e in after
      ensures e in after ==> e in registry || e.binding == entry.binding
    {
      ReplaceKeepsOthers(registry, failed, e);
      ReplaceKeepsOthers(registry, emptied, e);
    }
  }

  lemma LoopStep(w: World, v: World, registry: seq<Entry>, entries: seq<Entry>, k: nat, outcome: ScopeOutcome, revision: nat)
    requires k < |entries| && DistinctEntries(entries)
    requires LoopInv(w, registry, entries, k)
    requires w.user == v.user && w.disks - {entries[k].binding} == v.disks - {entries[k].binding}
    requires outcome == Emptied ==> !Occupied(v.At(entries[k].binding))
    ensures LoopInv(v, AfterOutcome(registry, entries[k], outcome, revision), entries, k + 1)
  {
    hide Occupied, RegistryCovers, WorkspaceName, AfterOutcome;
    var entry := entries[k];
    assert Covers(registry, entry.binding);
    CoverageStep(w, v, registry, entry, outcome, revision);
    OutcomeEntries(registry, entry, outcome, revision);
    OutcomeIsDistinct(w, registry, entry, outcome, revision);
    assert forall n :: k < n < |entries| ==> entries[n].binding != entry.binding;
  }

  lemma OutcomeIsDistinct(w: World, registry: seq<Entry>, entry: Entry, outcome: ScopeOutcome, revision: nat)
    requires DistinctEntries(registry) && OnlyWorkspaces(w, registry) && entry in registry
    ensures DistinctEntries(AfterOutcome(registry, entry, outcome, revision))
    ensures OnlyWorkspaces(w, AfterOutcome(registry, entry, outcome, revision))
  {
    hide WorkspaceName;
    ReplaceCovers(registry, entry.(state := Partial, registeredRevision := revision), entry.binding);
    ReplaceCovers(registry, entry.(state := Removed, registeredRevision := revision), entry.binding);
  }

  // The scope just dealt with.
  lemma DealtNow(w: World, v: World, entry: Entry, job: Job, reliable: bool, l: Ledger, outcome: ScopeOutcome,
                 gone: seq<SettingId>, revision: nat)
    requires entry in l.registry && entry.binding !in l.partial
    requires ScopeDone(w.At(entry.binding), v.At(entry.binding), entry.binding, job, reliable, outcome, gone)
    ensures Dealt(w, v, entry, job, reliable, AfterScope(l, entry, outcome, gone, revision))
  {
    hide AfterOutcome, Finishable, PluginGone, Lists, ListsAll, Tag, Knows, Removals, HasState, Occupied;
    OutcomeEntries(l.registry, entry, outcome, revision + l.bumps + 1);
    if outcome != Failed { TaggedLists(l.removed, entry.binding, gone, w.At(entry.binding), job.plugin); }
  }

  // The scopes dealt with before.
  lemma DealtStays(w: World, v: World, u: World, e: Entry, entry: Entry, job: Job, reliable: bool, l: Ledger,
                   outcome: ScopeOutcome, gone: seq<SettingId>, revision: nat)
    requires Dealt(w, v, e, job, reliable, l) && e.binding != entry.binding && entry in l.registry
    requires u.At(e.binding) == v.At(e.binding)
    ensures Dealt(w, u, e, job, reliable, AfterScope(l, entry, outcome, gone, revision))
  {
    hide AfterOutcome, Finishable, PluginGone, Tag, Knows;
    OutcomeEntries(l.registry, entry, outcome, revision + l.bumps + 1);
  }

  lemma DealtStep(w: World, v: World, u: World, entries: seq<Entry>, k: nat, job: Job, reliable: bool, l: Ledger,
                  outcome: ScopeOutcome, gone: seq<SettingId>, revision: nat)
    requires k < |entries| && DistinctEntries(entries) && entries[k] in l.registry
    requires AllDealt(w, v, entries, k, job, reliable, l)
    requires w.At(entries[k].binding) == v.At(entries[k].binding)
    requires v.user == u.user && v.disks - {entries[k].binding} == u.disks - {entries[k].binding}
    requires ScopeDone(w.At(entries[k].binding), u.At(entries[k].binding), entries[k].binding, job, reliable, outcome, gone)
    ensures AllDealt(w, u, entries, k + 1, job, reliable, AfterScope(l, entries[k], outcome, gone, revision))
  {
    hide Dealt, ScopeDone, AfterOutcome, Tag;
    var b := entries[k].binding;
    forall n | 0 <= n < |entries| && n != k ensures entries[n].binding != b && v.At(entries[n].binding) == u.At(entries[n].binding) {
      Elsewhere(v.user, v.disks, u.disks, b, entries[n].binding);
    }
    DealtNow(w, u, entries[k], job, reliable, l, outcome, gone, revision);
    forall n | 0 <= n < k ensures Dealt(w, u, entries[n], job, reliable, AfterScope(l, entries[k], outcome, gone, revision)) {
      DealtStays(w, v, u, entries[n], entries[k], job, reliable, l, outcome, gone, revision);
    }
  }

  /** Scopes without one of these entries are as they were. */
  ghost predicate Untouched(w: World, v: World, entries: seq<Entry>) {
    forall c :: (forall n :: 0 <= n < |entries| ==> c != entries[n].binding) ==> v.At(c) == w.At(c)
  }

  lemma NothingDealt(w: World, entries: seq<Entry>, job: Job, reliable: bool, registry: seq<Entry>)
    ensures AllDealt(w, w, entries, 0, job, reliable, Ledger(registry, 0, [], []))
    ensures HomeRemovals(w, w, [], job.plugin)
  {
  }

  // One round of the workspace loop changes one scope.
  lemma OneScope(w: World, v: World, u: World, entries: seq<Entry>, k: nat)
    requires k < |entries| && DistinctEntries(entries) && Untouched(w, v, entries)
    requires forall n :: k <= n < |entries| ==> v.At(entries[n].binding) == w.At(entries[n].binding)
    requires v.user == u.user && v.disks - {entries[k].binding} == u.disks - {entries[k].binding}
    ensures Untouched(w, u, entries)
    ensures forall n :: k < n < |entries| ==> u.At(entries[n].binding) == w.At(entries[n].binding)
    ensures entries[k].binding != v.user ==> u.At(v.user) == v.At(v.user)
  {
    forall c | c != entries[k].binding ensures u.At(c) == v.At(c) { Elsewhere(v.user, v.disks, u.disks, entries[k].binding, c); }
    assert forall n :: k < n < |entries| ==> entries[k].binding != entries[n].binding;
  }

  /** The workspace loop. The user index is rewritten only in memory. */
  method UninstallWorkspaces(home: SettingsHome, entries: seq<Entry>, job: Job, base: Index) returns (l: Ledger)
    requires home.Valid() && DistinctEntries(entries)
    requires forall e :: e in entries ==> e.binding != home.user
    requires LoopInv(home.Home(), base.registry, entries, 0)
    modifies home`disks, home`log, home`nextToken
    ensures home.Valid() && old(home.log) <= home.log
    ensures home.At(home.user) == old(home.At(home.user))
    ensures HomeKeeps(home.user, old(home.disks), home.disks, job.plugin)
    ensures Untouched(old(home.Home()), home.Home(), entries)
    ensures LoopInv(home.Home(), l.registry, entries, |entries|)
    ensures AllDealt(old(home.Home()), home.Home(), entries, |entries|, job, home.reliable, l)
    ensures HomeRemovals(old(home.Home()), home.Home(), l.removed, job.plugin)
    ensures l.bumps == 0 ==> l.registry == base.registry
  {
    hide Inv, Reaches, Abs, Keeps, Recovered, Occupied, PluginGone, LoopInv, ReplaceEntry, AllDealt, HomeRemovals, Untouched,
         DistinctEntries, HomeKeeps;
    l := Ledger(base.registry, 0, [], []);
    HomeKeepsAtFirst(home, job.plugin);
    ghost var w := home.Home();
    NothingDealt(w, entries, job, home.reliable, base.registry);
    assert Untouched(w, w, entries) by { NothingTouched(w, entries); }
    for k := 0 to |entries|
      invariant home.Valid() && old(home.log) <= home.log
      invariant home.At(home.user) == w.At(home.user)
      invariant HomeKeeps(home.user, w.disks, home.disks, job.plugin)
      invariant Untouched(w, home.Home(), entries)
      invariant LoopInv(home.Home(), l.registry, entries, k)
      invariant AllDealt(w, home.Home(), entries, k, job, home.reliable, l)
      invariant HomeRemovals(w, home.Home(), l.removed, job.plugin)
      invariant l.bumps == 0 ==> l.registry == base.registry
      invariant forall n :: k <= n < |entries| ==> home.At(entries[n].binding) == w.At(entries[n].binding)
    {
      ghost var v := home.Home();
      HomeKeepsAtFirst(home, job.plugin);
      var outcome, gone := UninstallScope(home, entries[k].binding, job);
      OneScope(w, v, home.Home(), entries, k);
      HomeKeepsStep(home.user, v.disks, v.disks, home.disks, entries[k].binding, job.plugin);
      HomeKeepsTwice(home.user, w.disks, v.disks, home.disks, job.plugin);
      LedgerStep(w, v, home.Home(), entries, k, job, home.reliable, l, outcome, gone, base.revision);
      l := AfterScope(l, entries[k], outcome, gone, base.revision);
    }
  }

  lemma NothingTouched(w: World, entries: seq<Entry>)
    ensures Untouched(w, w, entries)
  {
  }

  lemma LedgerStep(w: World, v: World, u: World, entries: seq<Entry>, k: nat, job: Job, reliable: bool, l: Ledger,
                   outcome: ScopeOutcome, gone: seq<SettingId>, revision: nat)
    requires k < |entries| && DistinctEntries(entries)
    requires LoopInv(v, l.registry, entries, k)
    requires AllDealt(w, v, entries, k, job, reliable, l) && HomeRemovals(w, v, l.removed, job.plugin)
    requires w.At(entries[k].binding) == v.At(entries[k].binding)
    requires v.user == u.user && v.disks - {entries[k].binding} == u.disks - {entries[k].binding}
    requires HomeKeeps(v.user, v.disks, u.disks, job.plugin)
    requires ScopeDone(w.At(entries[k].binding), u.At(entries[k].binding), entries[k].binding, job, reliable, outcome, gone)
    ensures var m := AfterScope(l, entries[k], outcome, gone, revision);
      && LoopInv(u, m.registry, entries, k + 1)
      && AllDealt(w, u, entries, k + 1, job, reliable, m)
      && HomeRemovals(w, u, m.removed, job.plugin)
  {
    hide Inv, Abs, Keeps, Occupied, PluginGone, AllDealt, HomeRemovals, AfterOutcome, Lists, Removals, Knows, Finishable, DistinctEntries,
         OnlyWorkspaces, RegistryCovers, HomeKeeps;
    var b := entries[k].binding;
    LoopStep(v, u, l.registry, entries, k, outcome, revision + l.bumps + 1);
    DealtStep(w, v, u, entries, k, job, reliable, l, outcome, gone, revision);
    HomeRemovalsStay(w, v, u, l.removed, job.plugin);
    TaggedRemovals(w, u, b, gone, job.plugin);
    MoreRemovals(w, u, l.removed, Tag(b, gone), job.plugin);
  }

  lemma LoopStart(w: World, entries: seq<Entry>)
    requires WorldInv(w) && DistinctEntries(w.Registry()) && entries == LiveEntries(w.Registry())
    ensures LoopInv(w, w.Registry(), entries, 0)
    ensures DistinctEntries(entries) && forall e :: e in entries ==> e.binding != w.user
  {
    assert forall n :: 0 <= n < |entries| ==> entries[n] in entries;
  }

  lemma LoopEnd(v: World, registry: seq<Entry>, entries: seq<Entry>)
    requires LoopInv(v, registry, entries, |entries|)
    ensures DistinctEntries(registry) && OnlyWorkspaces(v, registry) && RegistryCovers(v, registry)
  {
  }
}
