/** Recovery does not always converge: a reachable state in which it refuses for good. */
module SettingsStuck {
  import opened Wrappers
  import opened SettingsModel
  import opened SettingsProtocol
  import opened SettingsHistory
  import opened SettingsRecovery

  function Digest(c: char): string { seq(64, _ => c) }

  function User(): Binding { UserScope(Digest('a')) }

  function Example(package: char, generation: Token): Record {
    Record(SettingId("p", Digest(package), "TOKEN"), User(), "n", "d", true, generation)
  }

  lemma ExampleFields(package: char, generation: Token)
    requires 'a' <= package <= 'f'
    ensures RecordFields(Example(package, generation))
  {
    var r := Example(package, generation);
    assert r.name[0] !in " \t\n\r" && r.description[0] !in " \t\n\r";
    assert Utf8Bytes("n") == 1 + Utf8Bytes("n"[..0]);
    assert Utf8Bytes("d") == 1 + Utf8Bytes("d"[..0]);
  }

  /** The first `set` of a setting, and the `set` that carries it over to another package. */
  function First(): Journal { SetJournal(0, Prepared, Example('a', 1), None) }
  function Second(): Journal { SetJournal(2, Prepared, Example('b', 3), Some(Example('a', 1))) }

  // Ten durable states on the way to the stuck one.
  function Empty(revision: nat, refs: seq<Token>): Index { Index(revision, [], [], refs, []) }
  function Holding(revision: nat, refs: seq<Token>): Index { Index(revision, [Example('a', 1)], [], refs, []) }
  function Secrets(): map<Account, Secret> { map[Example('a', 1).Account() := "v"] }

  function State(k: nat): Disk {
    match k
    case 0 => EMPTY_DISK
    case 1 => Disk(None, map[0 := First()], map[], {0, 1})
    case 2 => Disk(Some(Empty(1, [0])), map[0 := First()], map[], {0, 1})
    case 3 => Disk(Some(Empty(1, [0])), map[0 := First()], Secrets(), {0, 1})
    case 4 => Disk(Some(Empty(1, [0])), map[0 := First().At(CredentialWritten)], Secrets(), {0, 1})
    case 5 => Disk(Some(Holding(2, [0])), map[0 := First().At(CredentialWritten)], Secrets(), {0, 1})
    case 6 => Disk(Some(Holding(2, [0])), map[0 := First().At(MetadataCommitted)], Secrets(), {0, 1})
    case 7 => Disk(Some(Holding(3, [])), map[0 := First().At(MetadataCommitted)], Secrets(), {0, 1})
    case 8 => Disk(Some(Holding(3, [])), map[], Secrets(), {0, 1})
    case 9 => Disk(Some(Holding(3, [])), map[2 := Second()], Secrets(), {0, 1, 2, 3})
    case 10 => Disk(Some(Holding(4, [2])), map[2 := Second()], Secrets(), {0, 1, 2, 3})
    case _ => Disk(Some(Holding(4, [2])), map[2 := Second().At(CleanupPending)], Secrets(), {0, 1, 2, 3})
  }

  /** A complete `set`, then one that crashes behind its reference, then a recovery whose one
      credential deletion fails. */
  function Act(k: nat): Action {
    match k
    case 0 => Stage(First())
    case 1 => Link(0)
    case 2 => Put(0, "v")
    case 3 => Mark(0, CredentialWritten)
    case 4 => Commit(0)
    case 5 => Mark(0, MetadataCommitted)
    case 6 => Unlink(0)
    case 7 => Sweep(0)
    case 8 => Stage(Second())
    case 9 => Link(2)
    case _ => Mark(2, CleanupPending)
  }

  lemma AdvanceFirst(k: nat)
    requires k < 4
    ensures Enabled(State(k), Act(k)) && Apply(State(k), Act(k)) == State(k + 1)
  {
    assert [] + [0] == [0];
  }

  lemma AdvanceCommit()
    ensures Enabled(State(4), Act(4)) && Apply(State(4), Act(4)) == State(5)
  {
    assert [] + [Example('a', 1)] == [Example('a', 1)];
    assert CommitIndex(Empty(1, [0]), First().At(CredentialWritten)) == Holding(2, [0]);
  }

  lemma AdvanceFinish(k: nat)
    requires 5 <= k < 8
    ensures Enabled(State(k), Act(k)) && Apply(State(k), Act(k)) == State(k + 1)
  {
    LastRef(0);
  }

  lemma AdvanceSecond(k: nat)
    requires 8 <= k < 11
    ensures Enabled(State(k), Act(k)) && Apply(State(k), Act(k)) == State(k + 1)
  {
    assert [] + [2] == [2];
  }

  function Reached(k: nat): World { if k == 0 then World(User(), map[]) else World(User(), map[User() := State(k)]) }

  lemma Advance(k: nat)
    requires k < 11
    ensures Allowed(Reached(k), Event(User(), Act(k)))
    ensures Happen(Reached(k), Event(User(), Act(k))) == Reached(k + 1)
  {
    hide Enabled, Apply, RecordFields;
    if k < 4 { AdvanceFirst(k); } else if k == 4 { AdvanceCommit(); } else if k < 8 { AdvanceFinish(k); } else { AdvanceSecond(k); }
    ExampleFields('a', 1);
    ExampleFields('b', 3);
    assert Reached(k).disks[User() := State(k + 1)] == Reached(k + 1).disks;
  }

  lemma {:induction false} Path(k: nat) returns (log: seq<Event>)
    requires k <= 11
    ensures Reaches(World(User(), map[]), log, Reached(k))
  {
    log := [];
    if k > 0 {
      hide Allowed, Happen, State, Act;
      log := Path(k - 1);
      Advance(k - 1);
      ReachesOneMore(World(User(), map[]), log, Reached(k - 1), Event(User(), Act(k - 1)));
      log := log + [Event(User(), Act(k - 1))];
    }
  }

  /** The stuck state is reachable: carrying a setting over to another package, a crash before the
      commit and one failed deletion in the following recovery are enough. */
  lemma StuckIsReachable()
    ensures exists log, w :: Reaches(World(User(), map[]), log, w) && Stuck(w.At(User()))
  {
    var log := Path(11);
    var d := State(11);
    assert Digest('a')[0] != Digest('b')[0];
    assert 2 in d.Idx().refs && Undecidable(d.Idx(), d.journals[2]);
    assert Reaches(World(User(), map[]), log, Reached(11)) && Stuck(Reached(11).At(User()));
  }
}
