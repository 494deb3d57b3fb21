# Harness: the proofs

This project models the parts of the harness repository that hold state and keep promises about it,
and proves those promises:

- **Settings store** (`Settings*.dfy`). Secrets live in a credential backend, records and tombstones
  in an index file, and every `set` and `remove` is a write-ahead transaction over journal files, the
  index and the backend. `SettingsProtocol` gives each durable effect its own step and an invariant
  all steps keep; `SettingsHistory` runs them over all scopes, any crash in between; on that rest
  atomicity, compare-and-swap and no resurrection (`SettingsAtomicity`) and recovery
  (`SettingsRecovery`). `SettingsStore` and `Settings*Uninstall` are the store itself: methods over a
  mutable home in which every write and every credential call may fail, may have taken effect
  although it failed, or may end the process. Each method says what the state is in each outcome.
  `SettingsCodec` and `SettingsJournalCodec` are the strict JSON readers and the writers.
- **Batch edits** (`Splices`, `SourceLines`, `ExactEdits`, `LineEdits`, `EditSimulator`). Exact-string
  batches and line edits equal a simultaneous substitution, and stay in the lines that were read.
- **Diagnostic log** (`DiagnosticQueue`, `Segments`, `Retention`, `LogPipeline`, `DiagnosticRuntime`).
  A bounded queue with a reserve and eviction, a rotating writer over partial writes, the retention
  sweep, and the interleaving of emits with the drain loop.
- **Compose** (`PlanDag`, `PlanArtifact`, `Readiness`, `WorkItemEngine`, `Pipeline`). Plan validation
  with its cycle search, the chain of readiness predicates, and the pipeline that completes an item.
- **Project scripts** (`TaskDocument`, `SemVer`). Task front matter and version precedence.

`Wrappers`, `Sorting` and `ScriptText` hold what several of them need: the optional value, a stable
sort, and trimming and splitting.

Some promises do not hold for every input. Each of these has a concrete input, or a family of them, on
which it fails and the exact condition under which it holds: recovery
(`SettingsStuck.StuckIsReachable`, `SettingsStore.SettingsHome.ReadOrRecoverLocked`), an uninstall
without a partial scope (`SettingsUninstall.UnindexedIsPartial`, `SettingsUninstall.UninstallPlugin`),
the readers of the index (`SettingsCodec.LooseVersionIsAccepted`, `SettingsCodec.NumberDocument`,
`SettingsCodec.NumberInIndexIsAccepted`, `SettingsCodec.IndexReadBack`) and of journals
(`SettingsJournalCodec.LooseJournalIsAccepted`, `SettingsJournalCodec.NumberInJournalIsAccepted`,
`SettingsJournalCodec.JournalReadBack`),
confinement of exact batches (`EditSimulator.VerticalTabEscapes`, `ExactEdits.ConfinedExactly`) and of
the single replacement (`EditSimulator.FirstLineIsHit`, `EditSimulator.ExactConfinedExactly`), the
order of the log files (`LogPipeline.FilesOutOfOrder`, `LogPipeline.InternalKeepsOrderExactly`), the
retention period of log files (`Retention.FiveDigitsStay`, `Retention.ExpiredGoExactly`), and
antisymmetry and transitivity of version comparison (`SemVer.LeadingZeroClash`,
`SemVer.AntisymmetricExactly`, `SemVer.ChainBreaks`, `SemVer.TransitiveExactly`).

A readiness computation reads part after part while others act, so what it finds need not hold in any one
state (`WorkItemEngine.TornReading`, on `WorkItemEngine.ReadyIsReady`); `Pipeline.Engine.RunPipeline` says
what does hold at a completion, with and without others acting.

Two comments of the diagnostic log say more than its code does, and the model follows the code: the
order on disk is stable (runtime.py:280) for queued records only, and only complete records enter a
segment (runtime.py:671) unless a write fails after part of a record was taken.

## Model

| member | source | states |
|---|---|---|
| SettingsProtocol.StepKeepsInv | packages/agent/harness_agent/config/settings.py:1729-1879 | every durable effect of `set`, `remove`, uninstall and replay (journal write, reference, credential write, commit, deletions, registry write), landing at any time, keeps the scope consistent: each pending journal is either committed or its pre-state is still in the index, a pending `set` is alone, pending removes name different settings, each active record has its credential, and every other credential is owed a clean-up by a referenced journal |
| SettingsHistory.RunKeepsInv | packages/agent/harness_agent/config/settings.py:1687-1688 | over every run of effects on any number of scopes, with a crash after any of them, every scope stays consistent, only the user scope has a registry, and every workspace scope with a record, a reference or a credential has a registry entry that is not `removed`; that a registry rewrite covers the occupied scopes, and that a scope is covered before a `set` is linked to it, are conditions on the events of a run, and the methods of `SettingsHome` and of the uninstall establish them before every such write |
| SettingsAtomicity.StepRefines | packages/agent/harness_agent/config/settings.py:1747-1766 | seen from outside (records, tombstones and the secrets of active records) every effect but the commit write changes nothing, and a commit write changes exactly what its journal decided |
| SettingsAtomicity.NoCommitNoChange | packages/agent/harness_agent/config/settings.py:1729-1779 | between two commit writes nothing changes what a scope holds, however many operations and recoveries start, fail or crash in between |
| SettingsAtomicity.IndexWriteRaisesRevision | packages/agent/harness_agent/config/settings.py:3172-3229 | an effect leaves the index as it is or gives it a larger revision |
| SettingsAtomicity.RevisionIdentifiesIndex | packages/agent/harness_agent/config/settings.py:1683-1686 | over any run the revision never falls, and an index seen again at one revision is the very same index, so comparing revisions is a sound compare-and-swap |
| SettingsAtomicity.UndecidedWasNeverActive | packages/agent/harness_agent/config/settings.py:1730-1746 | over every run from an empty home a journal that is not decided yet names a generation that was active at no earlier state of the run |
| SettingsAtomicity.NoResurrection | packages/agent/harness_agent/config/settings.py:2776-2793 | in every run from an empty home, a record generation that was active and has left the index never becomes active again, whatever is retried or recovered later |
| SettingsAtomicity.TombstoneLiftedOnlyBySet | packages/agent/harness_agent/config/settings.py:1747-1766 | over every run from an empty home a tombstone disappears only through the commit write of a `set` of the same setting, whose generation was active at no earlier state of the run |
| SettingsRecovery.JudgeIsRight | packages/agent/harness_agent/config/settings.py:2740-2876 | the branch table of replay agrees with the commit write: forward exactly when the operation was committed, back exactly when it was not, refused exactly for an uncommitted `set` whose clean-up failed once after it replaced a record of another package |
| SettingsRecovery.ForwardKeepsRecords | packages/agent/harness_agent/config/settings.py:2776-2793 | going forward, the credential of the new record is there and the index already holds the records that would be written again |
| SettingsRecovery.QuietIsRecovered | packages/agent/harness_agent/config/settings.py:2610-2621 | with nothing pending the scope is its own recovered state and holds credentials for exactly its active records: no leak, no dangling record |
| SettingsRecovery.RecoveredAgrees | packages/agent/harness_agent/config/settings.py:2610-2621 | the recovered state is consistent and quiet, shows the same content, and recovering again changes nothing |
| SettingsRecovery.SettlingKeepsGoal | packages/agent/harness_agent/config/settings.py:2721-2761 | whatever single effect of a recovery has been done, completing the recovery leads to the same state |
| SettingsRecovery.SettlingRunKeepsGoal | packages/agent/harness_agent/config/settings.py:2707-2876 | the same over any run of recovery effects: interrupted recoveries, repeated any number of times, do not move the state that recovery ends in |
| SettingsRecovery.RunAgreement | packages/agent/harness_agent/config/settings.py:1736-1779 | at every instant of every run each active record has its credential, every credential is active or owed by a pending journal but never both, and with nothing pending credentials and records match one to one |
| SettingsRecovery.CrashAtomicity | packages/agent/harness_agent/config/settings.py:1729-1782 | crash atomicity: end a run anywhere, whatever operations were interrupted and whatever recoveries failed or crashed in it, and let one recovery complete; without a commit write in the run the scope holds what it held before the run, otherwise exactly what the last commit write decided in the state it came in, and nothing is left over |
| SettingsStuck.StuckIsReachable | packages/agent/harness_agent/config/settings.py:2829-2831 | a concrete run, carrying a setting over to another package with one crash and one failed deletion, ends in a state that recovery refuses for ever |
| SettingsStore.SettingsHome.ReplayJournal | packages/agent/harness_agent/config/settings.py:2707-2876 | replaying one journal, under any failures: on success its reference and file are gone and nothing else changed; in every outcome the content and the end of recovery are kept; it refuses exactly the undecidable journals |
| SettingsStore.SettingsHome.CleanupOrPending | packages/agent/harness_agent/config/settings.py:2721-2738 | exactly one credential is deleted, or the journal says that it is still pending; the content never changes |
| SettingsStore.SettingsHome.ReplayAll | packages/agent/harness_agent/config/settings.py:2610-2621 | references are replayed in order up to the first failure; a stuck scope is left as it is |
| SettingsStore.SettingsHome.CommitWrite | packages/agent/harness_agent/config/settings.py:1747-1766 | the single index write that decides an operation: without it nothing changed, with it exactly what the journal says |
| SettingsStore.SettingsHome.SweepOrphans | packages/agent/harness_agent/config/settings.py:2902-2914 | journal files without a reference are deleted and nothing else |
| SettingsStore.SettingsHome.ReadOrRecoverLocked | packages/agent/harness_agent/config/settings.py:2610-2621 | recovery: success leaves exactly the recovered state; without failures it succeeds exactly when the scope is not stuck; failing, it may be run again towards the same state |
| SettingsStore.SettingsHome.WriteJournalAndRef | packages/agent/harness_agent/config/settings.py:2656-2670 | journal before reference: on success exactly both are there, on failure the content is what it was |
| SettingsStore.SettingsHome.SetLocked | packages/agent/harness_agent/config/settings.py:1729-1782 | the transaction of `set`: without its commit write the content is unchanged, with it exactly the record and secret are replaced; success leaves nothing pending |
| SettingsStore.SettingsHome.Set | packages/agent/harness_agent/config/settings.py:1646-1782 | `set` acts only on the index of the expected revision, changes the content only through its commit write and then exactly as asked, touches no other scope, and reports success only when everything is cleaned up and the workspace is `registered`; it never succeeds when one of its checks fails, and without failures it succeeds exactly when they all pass: the fields, both scopes recoverable, the revision, the declaration |
| SettingsStore.SettingsHome.RemoveRecordLocked | packages/agent/harness_agent/config/settings.py:3062-3121 | the transaction of `remove`: without its commit write the content is unchanged, with it exactly the record is replaced by its tombstone; a failed clean-up leaves a pending journal and nothing else |
| SettingsStore.SettingsHome.Remove | packages/agent/harness_agent/config/settings.py:1784-1879 | `remove` acts only on the index of the expected revision and on the record the caller named exactly, and leaves a stuck scope untouched; without failures it succeeds exactly when the fields are right, the scope is recoverable, the revision is the expected one and the record is there |
| SettingsStore.SettingsHome.Rebind | packages/agent/harness_agent/config/settings.py:1881-1943 | carrying a setting over to a new package keeps its secret, happens only when the two declarations agree, and says `rebound` only after the commit; the old record is replaced when both bindings name one plugin, and stays with its secret beside the new one when they do not; nothing to do means that no record could be carried over |
| SettingsStore.SettingsHome.RegisterWorkspaceLocked | packages/agent/harness_agent/config/settings.py:2949-2980 | on success the workspace is on record before anything is written to it: an entry that is `registered` stays as it is, and otherwise its entry becomes `registering` of the next revision, which the index then has; all other entries stay; a stuck user scope is refused |
| SettingsStore.SettingsHome.MarkWorkspaceRegisteredLocked | packages/agent/harness_agent/config/settings.py:2982-3013 | on success the entry of the workspace is `registered`, of the next revision unless it was so before, and all other entries stay; without failures it succeeds exactly when there is an entry and the user scope can be recovered; no content of the user scope changes |
| SettingsScopeUninstall.RemoveTargets | packages/agent/harness_agent/config/settings.py:2052-2065 | removing the plugin's records of one scope: in the user scope all of them leave the index even when clean-ups of earlier ones failed; every other record and secret stays; what is listed as removed has left, and when all went well everything is listed |
| SettingsScopeUninstall.UninstallScope | packages/agent/harness_agent/config/settings.py:2079-2135 | a scope that did not fail holds no record and no credential of the plugin and lists all the records it had; without failures it fails exactly when its store is that of another workspace, its index is missing or stuck, or a record is of another package; it is reported empty exactly when it knew the plugin and no record of any plugin is left, and is then not occupied at all |
| SettingsWorkspaceUninstall.UninstallWorkspaces | packages/agent/harness_agent/config/settings.py:2068-2141 | after the loop every scope not reported partial holds nothing of the plugin; each entry says `partial`, `removed` or what it said before as the scope was left, the rewritten registry still covers every occupied scope, and without failures only scopes that cannot be finished are reported |
| SettingsUninstall.Preflight | packages/agent/harness_agent/config/settings.py:2003-2038 | looking for a plugin changes no content; it is found only where a readable scope knows it, a scope that cannot be read is always noticed, and without failures both answers are exact |
| SettingsUninstall.UninstallPlugin | packages/agent/harness_agent/config/settings.py:1945-2156 | no record and no credential of the plugin is left in any scope that the result does not name as partial, and all its records there are listed as removed; what is listed was there and is gone; every live registered scope that cannot be finished is named, the registry says how each scope was left, and the revision is that of the user index; other plugins keep what they had, in every outcome; without failures it succeeds exactly when its checks pass, and then names no partial scope exactly when every live registered scope can be finished |
| SettingsUninstall.UnindexedIsPartial | packages/agent/harness_agent/config/settings.py:2949-2980 | any run of a home in which a workspace has no index yet can be continued by the registry write alone, and from there every uninstall that succeeds, of whatever plugin, names that workspace as partial |
| SettingsCodec.RecordRoundTrip | packages/agent/harness_agent/config/settings.py:1169-1260 | a written record reads back as itself |
| SettingsCodec.RecordReadBack | packages/agent/harness_agent/config/settings.py:1187-1260 | an accepted record document is exactly what its record would be written as |
| SettingsCodec.TombstoneRoundTrip | packages/agent/harness_agent/config/settings.py:3788-3822 | a written tombstone reads back as itself |
| SettingsCodec.TombstoneReadBack | packages/agent/harness_agent/config/settings.py:3788-3822 | an accepted tombstone document is what its tombstone would be written as exactly when its two digests are strings; the shape of a digest is checked after `str`, so a number of 64 digits passes too |
| SettingsCodec.EntryRoundTrip | packages/agent/harness_agent/config/settings.py:3938-3960 | a written registry entry reads back as itself |
| SettingsCodec.EntryReadBack | packages/agent/harness_agent/config/settings.py:3938-3960 | an accepted registry entry is exactly what it would be written as |
| SettingsCodec.IndexRoundTrip | packages/agent/harness_agent/config/settings.py:1354-1407 | a written index reads back as itself, post-conditions included |
| SettingsCodec.IndexReadBack | packages/agent/harness_agent/config/settings.py:1368-1407 | an accepted index document is what its index would be written as exactly when its schema version is the integer 1 and the digests of all its tombstones are strings |
| SettingsCodec.LooseVersionIsAccepted | packages/agent/harness_agent/config/settings.py:1368-1407 | a document with schema version `true` or `1.0` is accepted as well and is not what the index would be written as |
| SettingsCodec.NumberInIndexIsAccepted | packages/agent/harness_agent/config/settings.py:3811-3817 | when a package digest is spelled in digits only, the document with that number in place of the string is accepted as the very same index, at version 1, and is not what the index would be written as |
| SettingsCodec.NumberDocument | packages/agent/harness_agent/config/settings.py:3811-3817 | a concrete such document: one tombstone with the package digest 10 to the 63 |
| SettingsJournalCodec.JournalRoundTrip | packages/agent/harness_agent/config/settings.py:3825-3922 | a journal written at any phase reads back as itself |
| SettingsJournalCodec.JournalReadBack | packages/agent/harness_agent/config/settings.py:3825-3922 | an accepted journal is well formed and is what it would be written as exactly when its version is the integer 1, its retryable flag is true and, for a `remove`, the digests of its tombstone are strings |
| SettingsJournalCodec.NumberInJournalIsAccepted | packages/agent/harness_agent/config/settings.py:3811-3817 | a `remove` journal with a number for the package digest of its tombstone is accepted as the very same journal, and no journal is written like that |
| SettingsJournalCodec.LooseJournalIsAccepted | packages/agent/harness_agent/config/settings.py:3825-3922 | every well-formed journal is also accepted with `retryable` false, or with version `true` or `1.0`, in a document that no journal is written as |
| SettingsJournalCodec.RunIsReadable | packages/agent/harness_agent/config/settings.py:2690-2705 | after every run, crashed or not, the index and every journal file of every scope is accepted by the readers as what was written: the store never rejects its own state |
| Splices.NeighboursSuffice | packages/agent/evaluations/zc133/simulator.py:332-334 | for spans in the order of their starts comparing neighbours is enough: none of them overlap |
| Splices.BackToFront | packages/agent/evaluations/zc133/simulator.py:335-337 | splicing from the last span to the first is replacing all spans at once |
| Splices.StaysInside | packages/agent/evaluations/zc133/simulator.py:335-337 | cuts within a stretch leave what is before and after it as it was |
| SourceLines.BlockIsStretch | packages/agent/evaluations/zc133/fixtures.py:68-78 | the block of lines that was read is one stretch of the text |
| SourceLines.CountMeetsOffset | packages/agent/evaluations/zc133/simulator.py:323-324 | a position is in or after a line counted by newlines exactly when it is not before the offset where that line starts |
| SourceLines.LinesComeFirst | packages/agent/evaluations/zc133/simulator.py:63-64 | a line counted by newlines never starts before the line of that number as `splitlines` counts |
| ExactEdits.OnceMeans | packages/agent/evaluations/zc133/simulator.py:318-322 | the two searches decide whether the target occurs exactly once |
| ExactEdits.SeenIsInside | packages/agent/evaluations/zc133/simulator.py:323-330 | the line arithmetic of the seen check is an interval test on offsets |
| ExactEdits.OrderDoesNotMatter | packages/agent/evaluations/zc133/simulator.py:331-337 | success and result of a batch do not depend on the order of its edits |
| ExactEdits.ConfinedExactly | packages/agent/evaluations/zc133/simulator.py:316-344 | every accepted batch keeps the text outside the lines that were read exactly when `splitlines` and newline counting end the window at one place, or the newline window is not unique in the text, so that nothing is accepted |
| ExactEdits.PlainIsConfined | packages/agent/evaluations/zc133/simulator.py:316-344 | in a text whose only line break is a newline, optionally after a carriage return, every accepted batch keeps every byte outside the lines that were read |
| LineEdits.Overlaps | packages/agent/evaluations/zc133/simulator.py:443-453 | the growing set of occupied lines reports a clash exactly when two edits occupy a common line |
| LineEdits.ApplyEdits | packages/agent/evaluations/zc133/simulator.py:89-108 | bottom-up splicing on the list of lines is doing all line edits at once |
| LineEdits.ApplyExpected | packages/agent/evaluations/zc133/fixtures.py:104-128 | the reference operations of a fixture give the same text as the line edits they stand for |
| LineEdits.LineOrderDoesNotMatter | packages/agent/evaluations/zc133/simulator.py:89-108 | a batch of line edits that does not clash means the same in any order |
| LineEdits.LineEditsStayInWindow | packages/agent/evaluations/zc133/simulator.py:346-396 | line edits whose lines were read keep every byte outside the lines that were read, on any text |
| EditSimulator.InMemoryEditSimulator.Read | packages/agent/evaluations/zc133/simulator.py:144-168 | only lines that exist can be read; the snapshot holds the text as it is |
| EditSimulator.InMemoryEditSimulator.ExternalChange | packages/agent/evaluations/zc133/simulator.py:170-173 | a change from outside keeps the snapshot; when it changes the text, every later call on that snapshot is refused |
| EditSimulator.InMemoryEditSimulator.ExpireSnapshot | packages/agent/evaluations/zc133/simulator.py:175-178 | expiry keeps the text |
| EditSimulator.PlaceEdits | packages/agent/evaluations/zc133/simulator.py:315-330 | the search loop finds the span of every edit, or the first edit that cannot be placed and the right reason |
| EditSimulator.FindClash | packages/agent/evaluations/zc133/simulator.py:332-334 | the scan finds a span that begins before its predecessor ends, or none overlap |
| EditSimulator.ComposeEdits | packages/agent/evaluations/zc133/simulator.py:331-337 | sorting, comparing neighbours and splicing gives the simultaneous substitution, or points at an edit that overlaps another |
| EditSimulator.ProposeBatch | packages/agent/evaluations/zc133/simulator.py:307-339 | on a fresh snapshot a batch is proposed exactly when it is in order; a refusal explains itself |
| EditSimulator.ReadLineEdits | packages/agent/evaluations/zc133/simulator.py:374-385 | the argument loop accepts exactly edits that parse, fit the text and were seen |
| EditSimulator.ProposeLines | packages/agent/evaluations/zc133/simulator.py:368-391 | on a fresh snapshot line edits are proposed exactly when they are in order; a refusal explains itself |
| EditSimulator.InMemoryEditSimulator.ExecuteExactEdits | packages/agent/evaluations/zc133/simulator.py:266-344 | a batch call succeeds exactly when it is in order and nobody wrote in between, then with exactly the text it asks for; otherwise the file is as before, or as the other writer left it; the code says what is wrong with the edit it points at |
| EditSimulator.InMemoryEditSimulator.ExecuteSnapshot | packages/agent/evaluations/zc133/simulator.py:346-396 | the same for calls with line edits: whole success with the text asked for, or the file as it was and a code that fits what is wrong |
| EditSimulator.InMemoryEditSimulator.ExecuteExact | packages/agent/evaluations/zc133/simulator.py:215-264 | the same for a single replacement; its code tells a target that was not read from one that does not occur and one that occurs twice |
| EditSimulator.OneChangePerRead | packages/agent/evaluations/zc133/simulator.py:301-302 | after one read the file changes at most once whatever calls follow, and its text is the one read, one a call of the run asked for, or one injected at a commit |
| EditSimulator.WantedKeepsRest | packages/agent/evaluations/zc133/simulator.py:316-344 | a batch in order on a text with plain line breaks, and line edits on any text, ask for a text that is the same outside the lines that were read |
| EditSimulator.VerticalTabEscapes | packages/agent/evaluations/zc133/simulator.py:323-330 | a concrete text with a vertical tab in which a batch edits text that was never read |
| EditSimulator.ExactConfinedExactly | packages/agent/evaluations/zc133/simulator.py:252-257 | the single replacement is checked in the lines that were read but made at the first place in the file: every accepted call with a target stays in those lines exactly when the first occurrence does not start before them, or the target is not unique in them, so that no call is accepted |
| EditSimulator.FirstLineIsHit | packages/agent/evaluations/zc133/simulator.py:252-257 | a concrete file and an accepted call on its second line that changes its first line, which was not read |
| DiagnosticQueue.EvictionIsMinimal | packages/agent/harness_agent/diagnostic_log/runtime.py:530-544 | eviction takes the oldest records of its level first, no others, and stops at the first fit |
| DiagnosticQueue.AcceptedExactly | packages/agent/harness_agent/diagnostic_log/runtime.py:503-518 | an arriving record is accepted exactly when it fits beside the records it may not displace |
| DiagnosticQueue.RoomCounts | packages/agent/harness_agent/diagnostic_log/runtime.py:503-518 | what an arrival may not displace stays, all it displaces is counted as dropped, and if it still does not fit nothing it may displace is left |
| DiagnosticQueue.PriorityIsSafe | packages/agent/harness_agent/diagnostic_log/runtime.py:506-515 | no arrival removes a warning or an error, and one is refused only when no debug or info record is left |
| DiagnosticQueue.NothingIsLost | packages/agent/harness_agent/diagnostic_log/runtime.py:503-528 | over every run, per level: arrivals are queued, dropped, taken or cleared, each counted once |
| DiagnosticQueue.RunStaysCapped | packages/agent/harness_agent/diagnostic_log/runtime.py:503-544 | over every run the record and byte caps hold, and debug and info records stay out of the reserve |
| DiagnosticQueue.PutKeepsOrder | packages/agent/harness_agent/diagnostic_log/runtime.py:303-304 | arrivals with rising numbers keep the queue in order |
| DiagnosticQueue.BoundedQueue.Enqueue | packages/agent/harness_agent/diagnostic_log/runtime.py:503-518 | enqueueing does what the arrival rule says and keeps the byte counter equal to what is queued |
| DiagnosticQueue.BoundedQueue.TakeAllRecords | packages/agent/harness_agent/diagnostic_log/runtime.py:520-524 | the batch is the queue sorted by number, which is the queue itself when it is in order; the queue is empty afterwards |
| DiagnosticQueue.BoundedQueue.EvictUntilFits | packages/agent/harness_agent/diagnostic_log/runtime.py:530-544 | the eviction loop does what the eviction rule says and counts what it drops |
| DiagnosticQueue.BoundedQueue.ClearRecords | packages/agent/harness_agent/diagnostic_log/runtime.py:526-528 | clearing empties the queue and drops nothing from the counters |
| Segments.SegmentWriter.WriteAll | packages/agent/harness_agent/diagnostic_log/runtime.py:670-677 | partial writes are continued until all bytes are taken; on failure exactly the taken part was written |
| Segments.SegmentWriter.OpenSegment | packages/agent/harness_agent/diagnostic_log/runtime.py:583-608 | a segment gets the first free number, never that of an existing active file |
| Segments.SegmentWriter.FinalizeSegment | packages/agent/harness_agent/diagnostic_log/runtime.py:610-619 | closing uses up the number of the segment only when the rename succeeded |
| Segments.SegmentWriter.Append | packages/agent/harness_agent/diagnostic_log/runtime.py:566-573 | on success the stream has grown by exactly the record, every segment consists of whole records and is within the limit or holds one record; on failure by a proper part of it, and when nothing was taken all segments are still whole; a new segment is opened exactly when none is open or the record does not fit; without failures it succeeds |
| Retention.Scan | packages/agent/harness_agent/diagnostic_log/runtime.py:629-640 | the listing loop finds the closed files as candidates and sums up the active ones, of those whose segment number has four digits |
| Retention.RetainClosed | packages/agent/harness_agent/diagnostic_log/runtime.py:624-650 | when every unlink succeeds the survivors of the recognised closed files are the longest newest-first suffix that is unexpired and fits beside the active files |
| Retention.ExpiredGoExactly | packages/agent/harness_agent/diagnostic_log/runtime.py:26-27 | after a sweep in which every unlink succeeds no closed file past the retention period is on the disk exactly when none whose segment number has five digits is past it |
| Retention.FiveDigitsStay | packages/agent/harness_agent/diagnostic_log/runtime.py:26-27 | a closed segment from number 10000 on is neither a candidate nor counted, however old or large, and stays |
| Retention.StuckFilesOnly | packages/agent/harness_agent/diagnostic_log/runtime.py:642-650 | with unlinks that fail, no expired file that could be unlinked is left, and if the rest is too large only files that cannot be unlinked are left |
| LogPipeline.RunKeepsInv | packages/agent/harness_agent/diagnostic_log/runtime.py:276-306 | over every interleaving of emits and drain steps, queued records reach the files unchanged and in the order they were numbered |
| LogPipeline.FilesKeepOrder | packages/agent/harness_agent/diagnostic_log/runtime.py:391-402 | emits, taking a batch and appending from it keep files, batch and queue together in number order |
| LogPipeline.RunKeepsFiles | packages/agent/harness_agent/diagnostic_log/runtime.py:391-402 | the same over every run of such steps, so that the files end in number order |
| LogPipeline.InternalKeepsOrderExactly | packages/agent/harness_agent/diagnostic_log/runtime.py:404-440 | between two batches, with everything in order: after the log writes a record about itself, the files end in number order whatever follows, short of another such record, exactly when no record was waiting in the queue |
| LogPipeline.FilesRiseFromStart | packages/agent/harness_agent/diagnostic_log/runtime.py:276-440 | over every run in which the log writes about itself only while no record is waiting, the files are in number order |
| LogPipeline.FilesOutOfOrder | packages/agent/harness_agent/diagnostic_log/runtime.py:391-402 | a concrete run that writes the numbers 1, 3, 2 |
| DiagnosticRuntime.Runtime.EmitRecord | packages/agent/harness_agent/diagnostic_log/runtime.py:276-311 | emit draws a number before it checks, never writes a file, and does nothing when suppressed |
| DiagnosticRuntime.Runtime.Take | packages/agent/harness_agent/diagnostic_log/runtime.py:391-395 | the drain loop takes the whole queue in order |
| DiagnosticRuntime.Runtime.AppendOne | packages/agent/harness_agent/diagnostic_log/runtime.py:396-402 | while appends succeed the segments hold exactly the records appended; the first failure disables the log |
| DiagnosticRuntime.Runtime.AppendAggregate | packages/agent/harness_agent/diagnostic_log/runtime.py:404-440 | a record of the log about itself takes a number and goes straight to the segments |
| PlanDag.ExecutableIsAcyclic | packages/agent/harness_agent/compose/models.py:332-362 | a plan with an execution order has no closed walk of dependencies |
| PlanDag.CycleFinder.Visit | packages/agent/harness_agent/compose/models.py:339-357 | the depth-first visit terminates and returns a cycle, or everything below the id is done in topological order |
| PlanDag.CycleFinder.Cut | packages/agent/harness_agent/compose/models.py:342-344 | an id met again on the path closes a cycle that repeats no other id |
| PlanDag.CycleFinder.Leave | packages/agent/harness_agent/compose/models.py:354-357 | an id whose dependencies are all done extends the topological order |
| PlanDag.FindDagCycle | packages/agent/harness_agent/compose/models.py:332-362 | a returned tuple is a real cycle; one is returned exactly when a closed walk exists, and none exactly when the tasks can be executed in some order |
| PlanArtifact.ValidatePlan | packages/agent/harness_agent/compose/models.py:365-434 | exactly the acceptable payloads are accepted, each accepted plan can be executed in some order, and a cycle it reports is one |
| PlanArtifact.ReadTasks | packages/agent/harness_agent/compose/models.py:376-419 | the loop over the tasks of a plan accepts exactly well-formed ones with distinct ids and builds them as described |
| PlanArtifact.ReadTask | packages/agent/harness_agent/compose/models.py:378-419 | a task object is accepted exactly when it is well formed and its id is new |
| PlanArtifact.ReadCommands | packages/agent/harness_agent/compose/models.py:399-409 | exactly bounded lists of runnable commands are accepted |
| PlanArtifact.ReadPointers | packages/agent/harness_agent/compose/models.py:265-277 | exactly bounded lists of non-blank bounded texts are accepted |
| PlanArtifact.CheckDependencies | packages/agent/harness_agent/compose/models.py:420-423 | the check passes exactly when every dependency is the id of a task |
| Readiness.ConfirmedExactly | packages/agent/harness_agent/compose/readiness.py:240-253 | a gate is passed exactly when every document of its group is present and current, their digests differ, and one confirmation names them all |
| Readiness.ChainIsOrdered | packages/agent/harness_agent/compose/readiness.py:147-237 | every predicate implies all before it, and the next action is that of the first one that fails |
| WorkItemEngine.UndisturbedReading | packages/agent/harness_agent/compose/work_item_engine.py:1232-1280 | when nobody acts between the reads of a readiness computation, it sees the one state there is |
| WorkItemEngine.TornReading | packages/agent/harness_agent/compose/work_item_engine.py:1232-1280 | between the reads of a computation two edits of a ready item can be made and one undone, so that all nine predicates hold of what was read and not even the second in any state it was read from |
| WorkItemEngine.ReadyIsReady | packages/agent/harness_agent/compose/readiness.py:147-237 | a small concrete item is ready to be completed |
| WorkItemEngine.EditInvalidates | packages/agent/harness_agent/compose/readiness.py:189-237 | changing a document to anything but what is recorded fails its stage and all later ones |
| WorkItemEngine.ReconcilingDoesNotRevive | packages/agent/harness_agent/compose/work_item_engine.py:1203-1230 | recording the edited document does not bring its stage back, nor a later one, when no confirmation or evidence names the new digest (for the todo: from the implementation on) |
| WorkItemEngine.UndoRestores | packages/agent/harness_agent/compose/work_item_engine.py:1203-1230 | putting a document back and reconciling again restores the readiness: nothing else about a stage is kept |
| WorkItemEngine.RevisionInvalidates | packages/agent/harness_agent/compose/readiness.py:50-66 | another workspace revision fails the implementation and all later stages |
| WorkItemEngine.ReportBecomesCurrent | packages/agent/harness_agent/compose/guard.py:94-175 | with unchanged inputs a written report is current at the next computation |
| WorkItemEngine.ReportCurrentExactly | packages/agent/harness_agent/compose/readiness.py:294-322 | whatever others did since, while the review is fresh a report on record is current exactly when the document read now is the one it names and it was made from the very digests read now |
| WorkItemEngine.HalfWrittenReportIsStale | packages/agent/harness_agent/compose/guard.py:143-175 | a report write that stops half way does not make the report current |
| Pipeline.Engine.ReconcileDocuments | packages/agent/harness_agent/compose/work_item_engine.py:1203-1230 | others may act between the reads and writes of the pass: every document is recorded as it was when inspected unless the references read at first had it so; when nobody acts, it records every document that is there and leaves the rest |
| Pipeline.Engine.WriteReport | packages/agent/harness_agent/compose/guard.py:94-175 | document, reference, evidence in this order, others acting before each; a failure leaves a prefix of the three; nothing is written without a revision and a draft; when nobody acts it fails on these two only |
| Pipeline.Engine.ReadSources | packages/agent/harness_agent/compose/work_item_engine.py:886-925 | the four documents, the verification and the review are read one after the other, others acting in between; the digests are those of the states each was read in, or something was missing |
| Pipeline.Engine.RunReport | packages/agent/harness_agent/compose/work_item_engine.py:799-852 | when the pipeline goes on, the evidence on record names the digests as they were read before the three writes; when nobody acts, the report is then current if the review was fresh |
| Pipeline.Engine.ComputeReadiness | packages/agent/harness_agent/compose/work_item_engine.py:1232-1280 | fifteen reads, others acting before each: the result is that of the world put together from the states each part was read in, which came one after the other |
| Pipeline.Engine.Complete | packages/agent/harness_agent/compose/guard.py:177-194 | the compare-and-set succeeds only on the revision that is held and only for an item that is not terminal |
| Pipeline.Engine.CompleteAfter | packages/agent/harness_agent/compose/work_item_engine.py:854-884 | when it succeeds, the item was the same in every state the readiness was computed from as when it was loaded |
| Pipeline.Engine.RunPipeline | packages/agent/harness_agent/compose/work_item_engine.py:509-560 | completion is reported only when all nine predicates held of what one computation read, each part in a state after the start of the turn in which the item was the one that the compare-and-set then completed; at most eight activities run; when nobody interferes and no write fails, all nine held in one state, an item that is ready is completed, and one that only misses its report gets it and is completed |
| TaskDocument.ParseTaskDocument | scripts/project/tasks.ts:123-147 | the reader's loops compute the parse |
| TaskDocument.ReadFrontMatter | scripts/project/tasks.ts:127-134 | the line loop computes the values, or the first line or key that is wrong |
| TaskDocument.ReadRequired | scripts/project/tasks.ts:137-141 | the field loop finds every required value, or names the first that is missing |
| TaskDocument.RoundTrip | scripts/project/tasks.ts:198-201 | a printed document with plain values reads back with the same metadata and its body with trailing white space as one newline |
| TaskDocument.ParsedIsPlain | scripts/project/tasks.ts:123-147 | every value the reader returns is non-empty, trimmed and on one line |
| TaskDocument.RoundTripsExactly | scripts/project/tasks.ts:123-201 | metadata survives printing and reading exactly when all its values are plain |
| TaskDocument.PrintingIsStable | scripts/project/tasks.ts:123-201 | whatever was read can be printed and read again without loss, and printing is then stable |
| SemVer.CompareSemVer | scripts/project/release.ts:38-59 | the loop computes the comparison |
| SemVer.MatchesSection11 | scripts/project/release.ts:38-59 | on versions without leading zeros in numeric identifiers the comparison is the precedence of section 11 of Semantic Versioning 2.0.0 |
| SemVer.CompareIsTotalOrder | scripts/project/release.ts:38-59 | on those versions it is antisymmetric, total and transitive |
| SemVer.AntisymmetricExactly | scripts/project/release.ts:38-59 | for all versions, swapping the sides negates the result exactly when the first identifiers that differ are not two spellings of one number |
| SemVer.LeadingZeroClash | scripts/project/release.ts:52-54 | `1.0.0-01` and `1.0.0-1` are each reported lower than the other |
| SemVer.TransitiveExactly | scripts/project/release.ts:38-59 | for all versions, a chain of two comparisons carries over exactly unless the outer versions agree up to and including the first identifier that the middle one spells as another text of the same number, and the first is above the last |
| SemVer.ChainBreaks | scripts/project/release.ts:52-54 | `1.0.0-1.5`, `1.0.0-01.x` and `1.0.0-1.3` are each reported lower than the next, and the first higher than the last |
| SemVer.ChainParses | scripts/project/release.ts:25-35 | all three are accepted by the parser |
| SemVer.LeadingZerosParse | scripts/project/release.ts:25-35 | both of those versions are accepted by the parser |
| SemVer.ParsesExactly | scripts/project/release.ts:25-35 | a trimmed text parses exactly when it is put together from valid parts, and these determine the version |

## Left out

- Hashing: SHA-256 is a symbolic injective function, so digests, accounts and content hashes are equal exactly when what was hashed is equal, and every text of a digest's shape is the digest of something; which declaration a number of 64 digits spells the digest of is left open.
- Tokens: operation ids and generations come from a counter that never repeats; the shape of the hexadecimal strings is checked by the readers only.
- Credential backends: a partial map with calls that may fail before or after they took effect; the macOS, Linux and Windows backends, their probes and their permission checks are not part of this model. One backend is split by scope, since an account name contains the scope.
- Files and locks: a file write is one atomic step that happens or not; directories, symbolic links, access lists, `fsync`, mutexes and lock order are not modelled, and mutations of one home do not interleave.
- Reading secrets: listing, resolving, environments and snapshots of settings, which write nothing.
- Setting values and declarations: the size and character checks of values and the digest of a whole declaration list; a declaration is its variable and its sensitivity.
- Replaying a `remove` whose tombstone is missing in a late phase: the branch is in the verdict table and is shown to be unreachable, so the class has no write for it.
- SettingsUninstall.UninstallPlugin: visits the workspace scopes in the order of the registry instead of the order of their digests, and reports the scopes that are partial, not the single records in them; the identity check of a workspace path is a parameter.
- The edit simulator's dispatch on tool and candidate names, and the shapes of JSON arguments: an argument of the wrong type is a missing one. A snapshot holds one range of lines, as `read` makes it.
- Time in the log: timestamps, expiry clocks and file times are parameters; the names and dates of log directories (of a file name only the segment number counts), the schema check of a record and the JSON encoding are not modelled.
- Log shutdown: closing with a timeout, and the last record written after a failed append; a run of the writer ends at its first failed write. The counters of dropped and oversize records that the log reports about itself.
- DiagnosticRuntime.Runtime.AppendOne: does not model the number of records written that `close` reports.
- Retention deletes files of the segment model: `Segments` keeps what was written, `Retention` decides which closed files stay.
- Understanding, task results, reviews and the other artifacts of the plan model; the two regular expressions for placeholders and the set of white space are parameters of plan validation.
- The order in which the errors of plan validation are found is that of the code but is not stated.
- The gates and activities of the pipeline: each may do anything to the world that moves the store forward, and never completes the item. Evidence rows are append-only and the last one is the latest.
- The path recorded with a document reference, turn intents, sessions, slugs and projections.
- Task files: names, states, the board and the checks of a task's own fields.
- SemVer.CompareSemVer: numbers are unbounded where the script's are floating point; changelog, tags and release steps are not modelled.
