# VersiGo: a verified model of its hardest logic

VersiGo manages a household's insurance policies. This Dafny project models the parts of it in
which many operations share state or arithmetic, and proves what they keep. `dafny verify
dfyconfig.toml` checks everything; each module is one file.

## What is modelled

**Paperless tag synchronisation** (`TagModel` and the other `Tag*` modules, `PageWalk`,
`SyncSchedule`). For one policy, the API, the document service and the worker share a tag
configuration with a version, document link rows with two origin flags, and a durable outbox of
job rows. `TagModel` is the state machine: every operation is a function of the state, every
worker handling is split into a start and an end so that anything may happen while the worker
talks to Paperless, and `Step`/`After` run any sequence of events. `TagStore.Store` is the same
in the form of the source, a class whose methods rewrite rows in place and loop; each method
equals its function. On that basis:
- `TagInvariants`, `TagOutbox`, `TagRuns`: what every operation keeps, and what holds in every
  reachable state: link origins and uniqueness, the retry budget, exact progress, one current
  row per task, APPLIED belonging to the configured tag.
- `TagReconcile`, `TagSync`: a completed reconciliation against an independent description of
  its result, its meaning for the user's list, its counts, and idempotence.
- `TagVersions`, `TagInterleaving`: the configuration version over any run, and the
  reconciliation one write at a time with any other operations in between.
- `TagConcurrentLinks`, `TagListed`, `TagValues`: what a run means with other operations in between,
  and exactly when these make it harm the user's links and their values.
- `TagDelivery`, `TagHandling`, `TagOrigins`: who is queued for tagging, what a whole handling
  brings about, and which operations undo each other.
- `TagRaces`, `TagSnapshotRaces`, `TagRecreation`, `TagUnlinked`: feasible runs after which a promise of the code
  is broken, and exactly when configuring a removed tag again is harmless.

**Cost entries and the cost schedule** (`CostEntries`, `CostTimeline`, `CostTable`, `Calendar`,
`Money`, `CostSchedule`, `CostSummary`). A table of validity intervals whose predecessors are
ended and reopened automatically; the properties are about the function from a time to the
applied entry. The schedule turns the table into billing periods on a clamped month grid and
into sums per year; the calendar is the proleptic Gregorian one with its own proofs.

**Token budget, parsers, settings** (`TokenBudget`, `MoneyParser`, `DateParser`, `Settings`).

## Reading conventions

- A state is the state of one policy: all queries of the source filter by `policyId`. Row ids are
  counters, Paperless ids are integers (their decimal texts are the stored references).
- The order in which a query returns rows is an input (`rows`); which of several matching rows
  `findFirst` returns is an input too (`found`, `pick`), and results hold for all choices.
- `Doc.verifiedFor` and `Job.handlings` are history, not columns; `State.inflight` is what
  running handlers hold in local variables.
- A run (`Feasible`) delivers PENDING rows only, one worker at a time per row, and no handler
  stops halfway. Within such a run a reconciliation is one step; `TagInterleaving` takes it
  apart. A configuration version counts from 1 again after the tag was removed: claims about
  versions say which re-creations they exclude (`Recreates`, `Reuses`), and it is shown what
  happens otherwise. Versions are positive, as in every reachable state.
- Times are integer milliseconds in one zone without clock changes. Amounts are exact reals;
  rounding to cents is `Math.round` (halves up).
- `Rejection` and `Option` results stand for the source's exceptions and null results.

## Where the code does not keep a promise

Each failure has a lemma with a concrete input, the tag ones reached by a feasible run from the
empty store, and a lemma with the condition under which the code does keep the promise.
- *APPLIED belongs to the configured tag*: a worker that confirms the old tag after the tag was
  changed marks the row APPLIED (`TagRaces.LateConfirmationBreaksTagging`); kept over a whole run
  exactly without such a confirmation (`TagRuns.AlwaysFitsIff`).
- *One active sync of the current version*: a sync still being handled when a removed tag is
  configured again is put back beside the new one (`TagRaces.RecreatedBreaksUniqueness`); such a
  re-creation is harmless in every continuation (without a further one of the kind) exactly when
  nothing is being handled that may be put back and meet another row
  (`TagRecreation.RecreationIsSafeIff`).
- *A stale job never overwrites a newer configuration*: broken when a removed tag is configured
  again during a sync, because the version starts at 1 again
  (`TagRaces.ReusedVersionIsOverwritten`). A version comes back exactly as
  `TagVersions.VersionReusedIff` says, and as long as it does not, a configuration change ends all
  effects of the run (`TagInterleaving.ChangedRunIsInvisible`).
- *Linking queues the configured tag*: not when an active row of a superseded configuration is
  taken for it (`TagDelivery.StaleRowStandsIn`, `TagDelivery.QueuedForVersionIff`).
- *Manual links survive a lost tag*: not when linked after the run took its snapshot
  (`TagSnapshotRaces.LateLinkIsArchived`); exactly otherwise, whatever interleaves
  (`TagConcurrentLinks.RunKeepsManualIff`, per write `TagInterleaving.ManualSurvivesIff`).
- *Every active link has an origin*: not when unlinked after the snapshot
  (`TagSnapshotRaces.LateUnlinkLeavesNoOrigin`); exactly otherwise, whatever interleaves
  (`TagConcurrentLinks.InterleavedRunKeepsLinksIff`, per write `TagInterleaving.DropKeepsLinksIff`).
- *The sync never undoes the values of a manual link*: it does when linked after the snapshot
  (`TagValues.LateLinkIsOverwritten`); exactly otherwise than `Overwrites` says
  (`TagConcurrentLinks.RunKeepsValuesIff`), and never when syncs are taken in one piece
  (`TagValues.ValuesSurviveAnyRun`).
- *The worker's pre-filter drops no due policy*: it drops one in a single millisecond
  (`SyncSchedule.PrefilterDropsDuePolicy`, `SyncSchedule.PrefilterDropsIff`).
- *Removing a just created entry undoes its creation*: an end that the cut predecessor had is
  forgotten (`CostTimeline.RemovalForgetsTheEnd`); restored exactly under the condition of
  `CostTimeline.CreateThenRemoveRestoresIff`.
- *An amount that cannot be interpreted with certainty yields null*: digits before the amount are
  joined to it (`MoneyParser.PercentageIsJoined`); such text is harmless exactly as
  `MoneyParser.TextBeforeIsHarmlessIff` says.
- The comment of `parseIsoDate` names `DD.MM.YY`; the code reads four-digit years only
  (`DateParser.TwoDigitYearRejected`, `DateParser.OtherYearLengthsRejected`), and only from the
  year 100 on (`DateParser.ValidIffReal`; section 5.7 of RFC 3339 would allow earlier ones).

## Model

| member | source | states |
|---|---|---|
| TagInvariants.StepKeepsLinks | apps/api/src/features/documents/documents.service.ts:386-549 | every operation, in any state and order, keeps: each active link has an origin, at most one active row per document, without a tag only manual links |
| TagInvariants.LinkDocumentKeepsLinks | apps/api/src/features/documents/documents.service.ts:386-430 | linking keeps the link invariant, on a found row and on a new one |
| TagInvariants.RemoveDocumentKeepsLinks | apps/api/src/features/documents/documents.service.ts:711-746 | unlinking a row with one or two origins keeps the link invariant |
| TagInvariants.RemoveTagKeepsLinks | apps/api/src/features/paperless-ngx/paperless-tag.service.ts:449-482 | removing the tag keeps the link invariant, including that only manual links stay |
| TagInvariants.RunAllKeepsLinks | apps/worker/src/paperless-tag.processor.ts:504-598 | a reconciliation keeps the link invariant from any of its states on, while its snapshot still tells who is manual |
| TagOutbox.StepKeepsJobs | apps/worker/src/paperless-tag.processor.ts:288-306 | every operation keeps the retry budget, handling counts and exact progress; and, for each task, that at most one active row carries the current version, unless it creates a configuration again while a row for the task may still be put back |
| TagOutbox.EndRow | apps/worker/src/paperless-tag.processor.ts:288-306 | ending a handling, also one whose row was superseded meanwhile and is put back, keeps budget and uniqueness for every version |
| TagOutbox.RunCountsEverything | apps/worker/src/paperless-tag.processor.ts:481-536 | a finished run has counted each listed document exactly once |
| TagOutbox.SetTagKeepsJobs | apps/api/src/features/paperless-ngx/paperless-tag.service.ts:355-406 | changing the tag supersedes the old rows, so the new sync row is the only current one |
| TagRuns.ReachableLinks | apps/api/src/features/documents/documents.service.ts:719-746 | in every reachable state: an origin for each active link, no two active rows for one document, without a tag all links manual |
| TagRuns.ReachableRetries | apps/worker/src/paperless-tag.processor.ts:288-306 | in every reachable state: retryCount at most maxRetries, at most maxRetries + 1 handlings, after that settled for good; a completed sync has processed its total |
| TagRuns.ReachableCurrentRowsUnique | apps/worker/src/paperless-tag.processor.ts:814-831 | for each task at most one active row carries the current version in every reachable state, put-backs included, unless a removed configuration was created again while a row for the task was being handled that may be put back |
| TagRuns.ReachableTaggingFits | apps/worker/src/paperless-tag.processor.ts:665-725 | in every reachable state without a late confirmation, APPLIED manual links were verified for the configured tag, and without a tag no link has a tagging state |
| TagRuns.HandledAtOnceNeverDrifts | apps/worker/src/paperless-tag.processor.ts:665-725 | if each tagging ends right after it began, no confirmation is late |
| TagRuns.AppliedMeansCurrentTag | apps/api/src/features/documents/documents.service.ts:503-534 | with taggings handled in one go, an active manual APPLIED link was verified for the tag id configured now |
| TagRuns.EndTagFitsIff | apps/worker/src/paperless-tag.processor.ts:710-748 | a worker's result keeps APPLIED in step with the configuration exactly when the tag did not change meanwhile |
| TagRuns.AlwaysFitsIff | apps/worker/src/paperless-tag.processor.ts:665-748 | over whole runs APPLIED stays in step with the configuration in every state exactly when no confirmation comes late |
| TagRaces.LateConfirmationBreaksTagging | apps/worker/src/paperless-tag.processor.ts:715-719 | a feasible run ends with a link APPLIED for tag 7 while tag 8 is configured |
| TagRaces.RecreatedBreaksUniqueness | apps/api/src/features/paperless-ngx/paperless-tag.service.ts:370-379 | a feasible run ends with two active sync rows that carry the version configured now |
| TagRecreation.RecreationIsSafeIff | apps/api/src/features/paperless-ngx/paperless-tag.service.ts:358-406 | creating a removed configuration again keeps one active current row for a task in every continuation exactly when no row for it is being handled that may be put back and meet another one |
| TagRaces.ReusedVersionIsOverwritten | apps/worker/src/paperless-tag.processor.ts:430-438 | in a run from the empty store a sync of the removed tag adds its document and declares the newer configuration ACTIVE under the old tag's name |
| TagSnapshotRaces.LateLinkIsArchived | apps/worker/src/paperless-tag.processor.ts:582-594 | in a run from the empty store a document linked by the user after the snapshot is archived by the run |
| TagSnapshotRaces.LateUnlinkLeavesNoOrigin | apps/worker/src/paperless-tag.processor.ts:582-587 | in a run from the empty store a document unlinked by the user after the snapshot ends as an active link without any origin |
| TagValues.LateLinkIsOverwritten | apps/worker/src/paperless-tag.processor.ts:516-530 | in a run from the empty store the name of a document linked by the user after the snapshot is replaced by the run |
| TagVersions.StepVersion | apps/api/src/features/paperless-ngx/paperless-tag.service.ts:355-379 | of all operations only setting and removing the tag of an unarchived policy change the version |
| TagVersions.VersionAfter | apps/api/src/features/paperless-ngx/paperless-tag.service.ts:358-379 | whatever happens, the version is the number of assignments since the last removal, or goes on from the old one; none exactly after a removal |
| TagVersions.VersionReusedIff | apps/api/src/features/paperless-ngx/paperless-tag.service.ts:365-376 | whatever else happens, after a configuration change the version is configured again exactly when the tag was removed and set that many times since |
| TagReconcile.NothingToWriteIff | apps/worker/src/paperless-tag.processor.ts:122-156 | nothing is derived and the tag flag is set exactly when the row would not change |
| TagReconcile.RefreshedTwice | apps/worker/src/paperless-tag.processor.ts:516-536 | seeing the same remote document twice changes nothing the second time |
| TagReconcile.RemoteValuesReach | apps/worker/src/paperless-tag.processor.ts:112-156 | remote title, date and type reach automatically managed rows always and manual rows only where a value is missing |
| TagReconcile.NewTagDocSays | apps/worker/src/paperless-tag.processor.ts:538-551 | a new link of the sync says what the list says, named by its number where there is no title |
| TagReconcile.LastEntryWins | apps/worker/src/paperless-tag.processor.ts:475-476 | of several entries for one id the last one is used |
| TagReconcile.FirstEntriesInOrder | apps/worker/src/paperless-tag.processor.ts:475-504 | documents are walked in the order of their first entries |
| TagReconcile.RunAllInv | apps/worker/src/paperless-tag.processor.ts:504-598 | step by step: old rows are the walked ones, new rows the missing ones, the tally counts exactly the real changes |
| TagReconcile.ReconcileExact | apps/worker/src/paperless-tag.processor.ts:469-599 | a completed run rewrites every old row as the declarative description says, adds one row per unlinked listed document, and counts added, removed and total exactly |
| TagSync.UnlinkedMeaning | apps/worker/src/paperless-tag.processor.ts:499-502 | the documents a run adds are exactly the listed ones without an active link |
| TagSync.FlagMeansListed | apps/worker/src/paperless-tag.processor.ts:521-524 | after a run the tag flag of each active link says whether its document is listed |
| TagSync.ListedHasOneRow | apps/worker/src/paperless-tag.processor.ts:538-570 | after a run each listed document has exactly one active row |
| TagSync.OldLinkOutcome | apps/worker/src/paperless-tag.processor.ts:572-596 | manual links stay active and manual with the user's values; archived are exactly the tag-only links no longer listed |
| TagSync.ManualValuesSurvive | apps/worker/src/paperless-tag.processor.ts:112-121 | no sequence of runs ever changes a value the user's manual link has |
| TagValues.ValuesSurviveAnyRun | apps/worker/src/paperless-tag.processor.ts:112-121 | the values of a manual link survive any run of all operations, syncs taken in one piece, as long as it stays manual |
| TagSync.ActiveLinksAddUp | apps/worker/src/paperless-tag.processor.ts:481-598 | active links after = before + added - archived |
| TagSync.ProgressComplete | apps/worker/src/paperless-tag.processor.ts:75-82 | a completed sync has processedCount = totalCount |
| TagSync.ReconcileIdempotent | apps/worker/src/paperless-tag.processor.ts:469-599 | a second run on the same list changes no row and reports added = updated = removed = 0 |
| TagInterleaving.ChangedRunIsInvisible | apps/worker/src/paperless-tag.processor.ts:406-451 | from the first change of the configuration on, whatever interleaves, the run leaves the store as the other operations alone would and ends by writing its own row, unless the version comes back |
| TagInterleaving.ChangedSyncWritesOwnRow | apps/worker/src/paperless-tag.processor.ts:371-451 | a sync begun before the configuration changed ends by writing its own row, whatever happened in between and whatever Paperless answers |
| TagInterleaving.SupersededRunIsInvisible | apps/worker/src/paperless-tag.processor.ts:504-511 | while its version is not configured a run leaves the store as the other operations alone would |
| TagInterleaving.SupersededFinishWritesOwnRow | apps/worker/src/paperless-tag.processor.ts:413-451 | a superseded run ends by writing its own job row: no ACTIVE, no document, no backfill job |
| TagInterleaving.SupersededEndWritesOwnRow | apps/worker/src/paperless-tag.processor.ts:371-451 | the same for every answer of Paperless, failures included |
| TagInterleaving.NothingRemovedEarly | apps/worker/src/paperless-tag.processor.ts:504-572 | whatever interleaves, a run that has not walked the whole remote list, stopped midway or not, has archived no row and dropped no origin |
| TagConcurrentLinks.InterleavedRunKeepsLinksIff | apps/worker/src/paperless-tag.processor.ts:485-595 | whatever interleaves with a run, each active link keeps an origin and each document one active row at all times exactly when the run never takes the last origin of a link unlinked after the snapshot |
| TagConcurrentLinks.RunKeepsManualIff | apps/worker/src/paperless-tag.processor.ts:572-595 | whatever interleaves, the run takes no manual link from the user exactly when it archives none that became manual after the snapshot |
| TagConcurrentLinks.RunKeepsValuesIff | apps/worker/src/paperless-tag.processor.ts:516-530 | whatever interleaves, the run changes no value that a manual link has exactly when it overwrites none as judged by its snapshot |
| TagListed.UnlinkedIsListedAlong | apps/worker/src/paperless-tag.processor.ts:538-569 | whatever interleaves, the write for a listed document that the snapshot did not link leaves it linked with all its links flagged, and counts as added exactly when no link existed, else as untouched |
| TagListed.OneRowFlagged | apps/worker/src/paperless-tag.processor.ts:516-536 | the write for a linked document touches its row alone and flags it unless the snapshot had it flagged |
| TagListed.InterleavedFlagMeansListed | apps/worker/src/paperless-tag.processor.ts:504-598 | a completed run, whatever interleaved short of removing the tag or another sync: a flagged link is listed; a listed link of the snapshot, or one made before its document was walked, is flagged |
| TagInterleaving.DropKeepsLinksIff | apps/worker/src/paperless-tag.processor.ts:572-594 | dropping a lost tag origin keeps every link an origin exactly when the user did not unlink after the snapshot |
| TagDelivery.RetryServesExactly | apps/api/src/features/paperless-ngx/paperless-tag.service.ts:665-723 | a retry marks exactly the requested pending or failed manual links, each then has an active row, old rows stay, no needless row is added |
| TagDelivery.BackfillReachesAll | apps/worker/src/paperless-tag.processor.ts:607-661 | after the backfill every manual link is APPLIED or has an active assignment |
| TagDelivery.SyncServesManualLinks | apps/worker/src/paperless-tag.processor.ts:399-454 | a sync of the current configuration completes with exact counts, makes it ACTIVE and leaves no manual link unserved |
| TagHandling.SyncHandledInOneGo | apps/worker/src/paperless-tag.processor.ts:326-454 | a sync handled in one go: for a superseded row, an archived policy or another non-empty server than the configured one the row is SKIPPED with that reason; for each failing answer the row waits within its budget or fails, and the error is noted; no document changes in either case; else the configuration is ACTIVE and every manual link served |
| TagHandling.TaggingHandledInOneGo | apps/worker/src/paperless-tag.processor.ts:665-749 | a tagging handled in one go: skipped with its reason, or APPLIED for the current tag, or - for UNREACHABLE, API_ERROR and VERIFY_FAILED - pending again within the budget, or FAILED with any other code; row, document and configuration are given in full |
| TagHandling.FailedTaggingCanBeRetried | apps/worker/src/paperless-tag.processor.ts:738-748 | a failed assignment of a manual link stays open to the user's retry |
| TagHandling.SettledRowsAreLeft | apps/worker/src/paperless-tag.processor.ts:330-333 | a completed or skipped row is left alone when delivered again |
| TagHandling.StoppedSync | apps/worker/src/paperless-tag.processor.ts:413-427 | a stopped run ends SKIPPED with what it had counted |
| TagDelivery.TagIsSet | apps/api/src/features/paperless-ngx/paperless-tag.service.ts:350-406 | configuration, jobs and documents after setting a tag in full: the name Paperless gives wins, active rows are superseded, and APPLIED is reset only when the tag really changes |
| TagDelivery.NewRowIs | apps/api/src/features/paperless-ngx/paperless-tag.service.ts:399-406 | a new row is pending, untried, with three retries |
| TagHandling.ChangedTagReachesAllManualLinks | apps/api/src/features/paperless-ngx/paperless-tag.service.ts:388-406 | setting another tag and handling the sync it queues gives every manual link an active assignment of the new configuration |
| TagDelivery.SyncIsStarted | apps/api/src/features/paperless-ngx/paperless-tag.service.ts:518-541 | a request, or the tick of a due policy, leaves exactly one sync to wait for: the active one or a new one of the current version |
| TagDelivery.QueuedForVersionIff | apps/api/src/features/documents/documents.service.ts:516-546 | a link gets an assignment of the given configuration exactly when no active row of another one stands in for it |
| TagDelivery.StaleRowStandsIn | apps/api/src/features/documents/documents.service.ts:517-536 | a feasible run links a document while only a superseded row is active for it |
| TagOrigins.LinkThenUnlink | apps/api/src/features/documents/documents.service.ts:719-746 | unlinking what was just linked leaves the document linked exactly when the tag had assigned it, by the tag alone, and changes no other row |
| TagOrigins.NewLinkSays | apps/api/src/features/documents/documents.service.ts:397-412 | a new manual link says what Paperless says, named by its number where there is no title |
| TagOrigins.MadeManual | apps/api/src/features/documents/documents.service.ts:462-549 | linking records the manual origin, fills gaps, overwrites nothing and touches nothing else of the row |
| TagOrigins.UnlinkTouches | apps/api/src/features/documents/documents.service.ts:719-746 | unlinking touches one row: of two origins the manual one goes, else the row is archived as it is |
| TagOrigins.RemovingTheTagLeavesManualLinks | apps/api/src/features/paperless-ngx/paperless-tag.service.ts:440-482 | removing the tag leaves exactly the manual links, without tagging state, and skips every active row with TAG_REMOVED; each row and document is given in full |
| TagOrigins.SetThenRemove | apps/api/src/features/paperless-ngx/paperless-tag.service.ts:355-501 | a tag configured and removed before any sync leaves every link as it was |
| TagStore.ReadRemote | apps/worker/src/paperless-tag.processor.ts:475-476 | builds the map of listed documents: first position, last entry per id |
| TagStore.Store.ChangeTag | apps/api/src/features/paperless-ngx/paperless-tag.service.ts:355-425 | in place, the new state is SetTag of the old one |
| TagStore.Store.ReleaseLinks | apps/api/src/features/paperless-ngx/paperless-tag.service.ts:464-482 | three updates in sequence amount to WithoutTag on every row |
| TagStore.Store.DropTag | apps/api/src/features/paperless-ngx/paperless-tag.service.ts:449-501 | in place, the new state is RemoveTag of the old one |
| TagStore.Store.Refresh | apps/api/src/features/paperless-ngx/paperless-tag.service.ts:510-541 | a second request while a sync is active starts nothing |
| TagStore.Store.Retry | apps/api/src/features/paperless-ngx/paperless-tag.service.ts:665-723 | the loop over the rows equals RetryTagging |
| TagStore.Store.ApplyManual | apps/api/src/features/documents/documents.service.ts:472-549 | in place, the new state is ApplyManualLinkOrigin of the old one |
| TagStore.Store.Link | apps/api/src/features/documents/documents.service.ts:386-430 | the returned row is the active manual link to the document |
| TagStore.Store.Unlink | apps/api/src/features/documents/documents.service.ts:711-746 | in place, the new state is RemoveDocument of the old one |
| TagStore.Store.UpdateExisting | apps/worker/src/paperless-tag.processor.ts:516-536 | the write for a listed document that has a link |
| TagStore.Store.CreateLink | apps/worker/src/paperless-tag.processor.ts:538-569 | the insert, or the flag update when the unique index rejects it |
| TagStore.Store.WalkRemote | apps/worker/src/paperless-tag.processor.ts:504-570 | the loop over the remote list is the run's remote phase, abort included |
| TagStore.Store.VisitLocal | apps/worker/src/paperless-tag.processor.ts:572-595 | one link of the removal loop is one local step of the run |
| TagStore.Store.WalkLocals | apps/worker/src/paperless-tag.processor.ts:572-596 | the removal loop ends where the run ends |
| TagStore.Store.ReconcileAssignments | apps/worker/src/paperless-tag.processor.ts:469-599 | both loops together are the whole run: state, tally and abort flag |
| TagStore.Store.ScheduleManualLinkBackfill | apps/worker/src/paperless-tag.processor.ts:607-661 | the loop equals Backfill |
| TagStore.Store.CompleteSync | apps/worker/src/paperless-tag.processor.ts:413-453 | what the handler writes after the run |
| TagStore.Store.FinishHandling | apps/worker/src/paperless-tag.processor.ts:371-453 | the end of a sync handling for every answer |
| TagStore.Store.HandleSyncPolicy | apps/worker/src/paperless-tag.processor.ts:326-454 | a handling in one go is its start followed by its end |
| TagStore.Store.HandleTagDocument | apps/worker/src/paperless-tag.processor.ts:665-749 | a tagging in one go is its start followed by its end |
| TagStore.Store.ScheduleIfDue | apps/worker/src/paperless-tag.processor.ts:799-831 | the tick adds a sync row exactly when due and none is active |
| PageWalk.ListDocumentsByTag | apps/worker/src/paperless-tag.client.ts:266-299 | null, or the complete list with distinct ids; it succeeds exactly when all pages up to a last one within the page limit arrive |
| PageWalk.Dedupe | apps/worker/src/paperless-tag.client.ts:287-291 | distinct ids, and the same ids as all pages together |
| PageWalk.NothingLost | apps/worker/src/paperless-tag.client.ts:283-292 | a complete list has every document of every page |
| PageWalk.FieldsAsked | apps/worker/src/paperless-tag.client.ts:271-280 | the extended fields are asked for until a page rejects them; that page and all later ones are read with the minimal fields |
| PageWalk.CompleteIff | apps/worker/src/paperless-tag.client.ts:281-298 | all pages are there exactly when each arrives and only the last announces none |
| PageWalk.LastPageUnique | apps/worker/src/paperless-tag.client.ts:272-292 | the number of pages of a complete walk is determined by the server |
| CostEntries.EntryForPeriod | apps/api/src/features/cost-tracking/cost-schedule.ts:207-224 | none exactly when nothing covers the time; otherwise a covering entry that no covering entry precedes |
| CostEntries.AppliesUniquely | apps/api/src/features/cost-tracking/cost-schedule.ts:199-206 | with distinct starts the latest covering start decides |
| CostEntries.LatestThenNewest | apps/api/src/features/cost-tracking/cost-schedule.ts:199-206 | of the covering entries the latest start applies, of equal starts the one created last |
| CostEntries.AnyOrderAgrees | apps/api/src/features/cost-tracking/cost-schedule.ts:207-224 | the order in which the rows are read is irrelevant |
| CostEntries.EndPredecessorShortens | apps/api/src/features/cost-tracking/cost-tracking.service.ts:77-97 | the entry in force is really shortened and stays non-empty |
| CostEntries.CreateKeeps | apps/api/src/features/cost-tracking/cost-tracking.service.ts:178-206 | creating keeps starts distinct and intervals non-empty |
| CostEntries.UpdateKeeps | apps/api/src/features/cost-tracking/cost-tracking.service.ts:340-402 | updating keeps starts distinct and intervals non-empty |
| CostEntries.RemoveKeeps | apps/api/src/features/cost-tracking/cost-tracking.service.ts:434-439 | removing keeps starts distinct and intervals non-empty |
| CostTimeline.CreateChangesApplied | apps/api/src/features/cost-tracking/cost-tracking.service.ts:178-206 | creating an entry changes the applied entry at each time exactly as specified: nothing before it, later starters keep applying, then the new entry, then the old table without the cut row |
| CostTimeline.CreateInserts | apps/api/src/features/cost-tracking/cost-tracking.service.ts:187-206 | the new row never counts as its own predecessor |
| CostTimeline.RemoveLeavesNoGap | apps/api/src/features/cost-tracking/cost-tracking.service.ts:434-439 | removing an entry uncovers no time when some entry ended right before it |
| CostTimeline.MoveForwardLeavesNoGap | apps/api/src/features/cost-tracking/cost-tracking.service.ts:340-402 | moving a start forward without submitting an end uncovers no time when some entry ended right before the old start |
| CostTimeline.UpdateEffect | apps/api/src/features/cost-tracking/cost-tracking.service.ts:334-402 | an accepted update writes what was submitted and keeps the rest, an end that was not submitted included unless the start passes it; unless the start moves forward no other row is reopened and at most the one in force at the new start is cut |
| CostTimeline.UpdateAcceptedIff | apps/api/src/features/cost-tracking/cost-tracking.service.ts:334-369 | an update is refused for the first reason that holds - no amount, an end not after the start unless a later entry had caused it, a taken start - and accepted when none does |
| CostTimeline.UpdateOfNothing | apps/api/src/features/cost-tracking/cost-tracking.service.ts:326-332 | an update of a missing entry is refused |
| CostTimeline.CreateAcceptedIff | apps/api/src/features/cost-tracking/cost-tracking.service.ts:156-198 | a creation is refused for the first reason that holds and accepted when none does; then the new row says what was submitted |
| CostTimeline.CreateThenRemoveRestoresIff | apps/api/src/features/cost-tracking/cost-tracking.service.ts:129-151 | removing what was just created restores the table for every pick exactly when nothing ended right before it and the cut entry was open-ended |
| CostTimeline.RemovalForgetsTheEnd | apps/api/src/features/cost-tracking/cost-tracking.service.ts:129-151 | creating and removing an entry inside a limited one leaves that one without its end |
| CostTimeline.ApplyKeepsSound | apps/api/src/features/cost-tracking/cost-tracking.service.ts:153-462 | every create, update and remove, accepted or refused, keeps the table sound |
| CostTimeline.ReachableTables | apps/api/src/features/cost-tracking/cost-tracking.service.ts:83-96 | after any run the applied entry is the same for every ordering of the rows |
| CostTable.CostStore.EndPredecessorAt | apps/api/src/features/cost-tracking/cost-tracking.service.ts:66-97 | in place, rows and answer equal EndPredecessor |
| CostTable.CostStore.RestorePredecessorAt | apps/api/src/features/cost-tracking/cost-tracking.service.ts:129-151 | reopens a row that ended right before the start, if there is one |
| CostTable.CostStore.CreateEntry | apps/api/src/features/cost-tracking/cost-tracking.service.ts:153-228 | the new entry and table, or the reason of refusal (source document included) with the table unchanged |
| CostTable.CostStore.UpdateEntry | apps/api/src/features/cost-tracking/cost-tracking.service.ts:322-414 | the written row and the new table, or the reason of refusal |
| CostTable.CostStore.RemoveEntry | apps/api/src/features/cost-tracking/cost-tracking.service.ts:422-456 | the new table and the reopened row |
| Calendar.NextMonthStarts | apps/api/src/features/cost-tracking/cost-schedule.ts:52-60 | each month begins right after the last day of the month before, leap years included |
| Calendar.MonthIsUnique | apps/api/src/features/cost-tracking/cost-schedule.ts:52-60 | a day lies in exactly one month |
| Calendar.PartsOfCompose | apps/api/src/features/cost-tracking/cost-schedule.ts:53-58 | month, day and time of day are read back from the time they were put into |
| Calendar.AddedParts | apps/api/src/features/cost-tracking/cost-schedule.ts:45-60 | adding months moves the month exactly, keeps the time of day and clamps the day without drift |
| Calendar.AddedIncrease | apps/api/src/features/cost-tracking/cost-schedule.ts:45-60 | more months added, a later time |
| Calendar.NoDriftExample | apps/api/src/features/cost-tracking/cost-schedule.ts:45-51 | from 31 January the periods begin on the last of February, on 31 March and on 30 April |
| Money.CentsSurvive | apps/api/src/features/cost-tracking/cost-schedule.ts:68-75 | cents survive being turned into an amount and back |
| Money.SumAmounts | apps/api/src/features/cost-tracking/cost-schedule.ts:139-148 | the sum in cents; missing exactly when nothing is recorded |
| Money.YearsAddUp | apps/api/src/features/cost-tracking/cost-schedule.ts:287-296 | splitting amounts by year loses nothing |
| Money.YearTableConserves | apps/api/src/features/cost-tracking/cost-schedule.ts:332-337 | a yearly table has the total of what it was made of, and is empty-valued exactly when that is |
| Money.SortedYears | apps/api/src/features/cost-tracking/cost-schedule.ts:332-333 | the same years, ascending |
| CostSchedule.ResolveCostAnchor | apps/api/src/features/cost-tracking/cost-schedule.ts:176-185 | the least of policy start and entry starts; none exactly without candidates |
| CostSchedule.SelectActiveOrLatestEntry | apps/api/src/features/cost-tracking/cost-schedule.ts:226-240 | the entry that applies at the time if any covers it, else one with the latest start; none exactly for the empty list |
| CostSchedule.PeriodsTile | apps/api/src/features/cost-tracking/cost-schedule.ts:275-308 | periods tile time from the anchor on, start on the anchor's day or the month's last, and incurred ones come first |
| CostSchedule.PeriodIndex | apps/api/src/features/cost-tracking/cost-schedule.ts:275-308 | every time from the anchor on lies in some period |
| CostSchedule.PeriodIsUnique | apps/api/src/features/cost-tracking/cost-schedule.ts:275-308 | and in one only |
| CostSchedule.PeriodShows | apps/api/src/features/cost-tracking/cost-schedule.ts:283-306 | a period shows an amount exactly when the entry that applies at its start has one, and names it; a period no entry covers shows neither |
| CostSchedule.IncurredRecorded | apps/api/src/features/cost-tracking/cost-schedule.ts:285-297 | something was paid - at all, or in a year - exactly when a started period, of that year, begins under an entry with an amount |
| CostSchedule.ResolveFrequency | apps/api/src/features/cost-tracking/cost-schedule.ts:187-197 | the policy's own frequency, else that of the entry shown, else monthly |
| CostSchedule.HorizonIrrelevant | apps/api/src/features/cost-tracking/cost-schedule.ts:285-296 | what was incurred is the same for every horizon from asOf on |
| CostSchedule.AddToYear | apps/api/src/features/cost-tracking/cost-schedule.ts:287-296 | the buckets stay the sums of the incurred amounts of their years |
| CostSchedule.TableOf | apps/api/src/features/cost-tracking/cost-schedule.ts:332-337 | one ascending row per year with that year's sum |
| CostSchedule.ComputePeriods | apps/api/src/features/cost-tracking/cost-schedule.ts:271-308 | the unbounded loop ends with exactly the periods up to the horizon, their incurred sum and their yearly table; each amount is missing exactly when no started period has one |
| CostSchedule.ComputePolicySchedule | apps/api/src/features/cost-tracking/cost-schedule.ts:248-339 | the whole schedule, empty without entries |
| CostSummary.SummarizePolicyCosts | apps/api/src/features/cost-tracking/cost-schedule.ts:353-368 | paid to date is the sum of the started periods for every horizon; each yearly amount is the sum of what was incurred in that year; both are missing exactly when no started period begins under an entry with an amount |
| CostSummary.ScheduleAgreesWithSummary | apps/api/src/features/cost-tracking/cost-tracking.service.ts:464-474 | the full table and the summary show the same total, which the yearly rows add up to |
| CostSummary.GetHouseholdSummary | apps/api/src/features/cost-tracking/cost-tracking.service.ts:542-613 | each household year is the sum of what all policies incurred in it; totals are the sums of the policies' totals and of the years, and each is missing exactly when no policy paid anything; the projected amounts are those of the entries shown |
| CostSummary.CreateKeepsAnchor | apps/api/src/features/cost-tracking/cost-schedule.ts:176-185 | a new entry no earlier than the anchor leaves the anchor |
| CostSummary.CreateKeepsHistory | apps/api/src/features/cost-tracking/cost-tracking.service.ts:200-206 | a new entry changes no period that started before it: same grid, amount and entry |
| CostSummary.ProrationBound | apps/api/src/features/cost-tracking/cost-schedule.ts:155-168 | the n consecutive periods that make one period of the entry applying to them sum to its amount up to half a cent each |
| CostSummary.ProrationExact | apps/api/src/features/cost-tracking/cost-schedule.ts:161-168 | a step of several entry periods carries exactly their cents |
| CostSummary.CurrentProjection | apps/api/src/features/cost-tracking/cost-schedule.ts:310-329 | the annual projection is the entry carried over to a year; twelve months and four quarters of it make the year up to half a cent each |
| TokenBudget.CutAtWordBoundary | packages/foundation/src/ai/input-token-budget.ts:66-77 | a prefix ending right before the last white space past half of the limit, else at the limit |
| TokenBudget.ApproxTokenCount | packages/foundation/src/ai/input-token-budget.ts:60-64 | the least number of tokens of four characters that has room for the text |
| TokenBudget.TruncateToChars | packages/foundation/src/ai/input-token-budget.ts:79-88 | within the limit; with a readable limit a prefix over half of the room followed by the marker, else a hard cut |
| TokenBudget.Fitted | packages/foundation/src/ai/input-token-budget.ts:121-138 | never over its quota, and unchanged exactly when it fits |
| TokenBudget.SpendBudget | packages/foundation/src/ai/input-token-budget.ts:115-138 | the loop returns each document fitted to its quota and counts the changed ones |
| TokenBudget.ApplyInputTokenBudget | packages/foundation/src/ai/input-token-budget.ts:103-141 | same number and order of documents, the count of changed ones, the original total; untouched without a positive limit, else within it, and truncated exactly when it is exceeded |
| TokenBudget.WithinBudget | packages/foundation/src/ai/input-token-budget.ts:97-101 | the returned documents never exceed an active limit |
| TokenBudget.BudgetIdempotent | packages/foundation/src/ai/input-token-budget.ts:97-141 | applying the budget twice equals applying it once |
| TokenBudget.QuotasNeverDecrease | packages/foundation/src/ai/input-token-budget.ts:119-136 | unused quota goes to the later documents: quotas never decrease |
| TokenBudget.FairShareUntouched | packages/foundation/src/ai/input-token-budget.ts:119-129 | a document of at most an equal share of the limit is untouched |
| TokenBudget.TruncatedIff | packages/foundation/src/ai/input-token-budget.ts:110-140 | something is shortened exactly when the limit is active and exceeded |
| MoneyParser.ParsePrinted | packages/foundation/src/ai/cost-extraction-format.ts:140-169 | German, English, plain and comma notation of every amount, with any text around it, parse to that amount |
| MoneyParser.ParsePrintedWhole | packages/foundation/src/ai/cost-extraction-format.ts:151-164 | grouped amounts without decimals, in either notation, parse to that amount |
| MoneyParser.ParseShortDecimals | packages/foundation/src/ai/cost-extraction-format.ts:157-164 | a single separator before one digit or none is the decimal one: 12,5 is twelve and a half |
| MoneyParser.CentsAlone | packages/foundation/src/ai/cost-extraction-format.ts:157-169 | ,50 and .50 are half a unit |
| MoneyParser.NoDigitIsNoAmount | packages/foundation/src/ai/cost-extraction-format.ts:144-168 | a text without any digit is no amount |
| MoneyParser.ParseNegative | packages/foundation/src/ai/cost-extraction-format.ts:166-168 | a leading minus is dropped: the printed amount is read all the same |
| MoneyParser.TextBeforeIsHarmlessIff | packages/foundation/src/ai/cost-extraction-format.ts:137-144 | text before an amount, free of separators and sign, is harmless exactly when the only digit in it is 0 |
| MoneyParser.PercentageIsJoined | packages/foundation/src/ai/cost-extraction-format.ts:137-144 | 19% 119,00 is read as 19119.00 |
| MoneyParser.NormalizedGrouped | packages/foundation/src/ai/cost-extraction-format.ts:151-156 | of two separators the last is the decimal one, whatever the grouping |
| MoneyParser.NormalizedPlain | packages/foundation/src/ai/cost-extraction-format.ts:157-164 | a single separator before two digits is the decimal one |
| DateParser.ValidIffReal | packages/foundation/src/ai/cost-extraction-format.ts:198-206 | accepted are exactly the Gregorian dates from the year 100 on |
| DateParser.IsoRoundTrip | packages/foundation/src/ai/cost-extraction-format.ts:179-184 | the ISO form of an accepted date is read as itself |
| DateParser.GermanRoundTrip | packages/foundation/src/ai/cost-extraction-format.ts:186-193 | the German form, with or without leading zeros, is read as the same ISO date |
| DateParser.OtherYearLengthsRejected | packages/foundation/src/ai/cost-extraction-format.ts:175-196 | years of another length than four digits are not read |
| DateParser.TwoDigitYearRejected | packages/foundation/src/ai/cost-extraction-format.ts:175-178 | 24.12.99 is not read |
| DateParser.OutputsAreFixpoints | packages/foundation/src/ai/cost-extraction-format.ts:179-196 | every output is the ISO form of a real date and is read as itself |
| Settings.CanonicalIsFixpoint | packages/foundation/src/config/settings-validation.ts:30-73 | the canonical form is the printed value and validates to the same value and form |
| Settings.AcceptedIsAdmitted | packages/foundation/src/config/settings-validation.ts:44-72 | whatever is accepted is of the type, within the range and among the allowed values |
| Settings.AcceptsPrintedIff | packages/foundation/src/config/settings-validation.ts:44-72 | a printed value is read as itself exactly when the definition admits it |
| Settings.BooleanTexts | packages/foundation/src/config/settings-validation.ts:45-50 | true and false are accepted in any case, and no other text |
| Settings.NumberTexts | packages/foundation/src/config/settings-validation.ts:51-63 | accepted are exactly an optional minus and digits whose value is in range |
| Settings.Precedence | packages/foundation/src/config/settings-resolver.service.ts:123-238 | usable stored value (restart settings excepted), then usable environment value, then default; pending is exactly a usable stored restart value that is not effective yet |
| Settings.ShowIsInjective | packages/foundation/src/config/settings-resolver.service.ts:149-150 | comparing printed values is comparing values |
| Settings.IntegerRoundTrip | packages/foundation/src/config/settings-validation.ts:51-62 | printing and parsing an integer gives it back |
| Settings.Process.Preload | packages/foundation/src/config/settings-preload.ts:60-109 | the row loop writes exactly the canonical forms of catalogued, valid rows |
| Settings.PreloadedAt | packages/foundation/src/config/settings-preload.ts:63-99 | each row's variable holds its canonical form afterwards, or what it held before |
| Settings.RestartRoundTrip | packages/foundation/src/config/settings-resolver.service.ts:139-160 | after a restart a restart setting has the value announced as pending (or already active), and nothing is pending |
| Settings.OtherKeysUnaffected | packages/foundation/src/config/settings-preload.ts:54-57 | runtime and bootstrap settings, secrets without boot activation and settings without a stored value resolve as before |
| Settings.InvalidValueIgnored | packages/foundation/src/config/settings-preload.ts:81-94 | an invalid stored value is never adopted and changes nothing effective |
| SyncSchedule.IntervalMs | packages/foundation/src/config/paperless-sync-schedule.ts:31-45 | within the accepted range and as near to the setting as possible; the default for an unusable one |
| SyncSchedule.StaggerMs | packages/foundation/src/config/paperless-sync-schedule.ts:57-73 | between 0 and the lesser of interval and two ticks; a number in that window is its own offset |
| SyncSchedule.NextIsEarliestDue | packages/foundation/src/config/paperless-sync-schedule.ts:102-118 | the announced time is the earliest from now on at which the sync is due, at least the interval after the last one |
| SyncSchedule.PrefilterDropsIff | apps/worker/src/paperless-tag.processor.ts:782-812 | the pre-filter drops a due policy exactly when it has no offset and became due this millisecond |
| SyncSchedule.PrefilterDropsDuePolicy | apps/worker/src/paperless-tag.processor.ts:786-793 | a policy without an offset, last synced exactly one interval ago, is due and dropped |

## Left out

- HTTP, Prisma transactions, BullMQ and Redis, logging and audit rows, access checks: any PENDING row may be delivered, and Paperless answers anything.
- The `take` limits of tick, retry and backfill (200 and 500 rows): the results are for the rows the query returned.
- A handler that stops halfway, or two workers on one row.
- Progress writes during a run (every tenth document): only the final counts are modelled.
- Failed tag lookups of `setTag`: they leave the state unchanged.
- The recovery from a unique violation while linking: it is the case `found` of the next attempt.
- The assignment of a tag over HTTP with its own retries: its result is an input.
- Uploads, classification and metadata edits of documents, and rows of other storage types beyond what the shared queries touch.
- TagRuns.AppliedMeansCurrentTag: compares numeric tag ids as the code does; the same id on another server is not told apart.
- CostTable.CostStore.CreateEntry: booking source, note and the reference to the source document are not stored; the document lookup is an input.
- CostSchedule.ComputePolicySchedule: the period label and the ISO texts of times are not modelled.
- CostTimeline.MoveForwardLeavesNoGap: moving the first entry forward leaves a gap, which the source documents as intended.
- CostSummary.CreateKeepsHistory: is for a policy with its own payment frequency, because without one a new entry may change the step of the whole grid.
- Calendar.AddedParts: daylight saving changes and the reading of the years 0 to 99 by JavaScript's Date constructor are not modelled.
- Money.SumAmounts: amounts are exact reals, so floating-point error is not modelled.
- MoneyParser.ParsePrinted: numeric inputs are not modelled, only texts.
- TokenBudget.ApplyInputTokenBudget: a fractional limit and contents that are not an array of texts are not modelled.
- Settings.IntegerRoundTrip: numbers beyond 2^53, which JavaScript rounds, are not modelled; the catalogue bounds the restart numbers far below.
- Settings.RestartRoundTrip: decryption, the preload's time limit and a failing database (no row applied) are not modelled.
- TagRecreation.RecreationIsSafeIff: is about tagging tasks of existing document rows, because rows are never deleted while a policy exists.
- MoneyParser.TextBeforeIsHarmlessIff: text with separators or a sign before the amount, and digits after it, are not characterised.
- SyncSchedule.PrefilterDropsDuePolicy: the hash 0 stands for a policy without an offset; the hash function of the policy id is not modelled.
- SyncSchedule.StaggerMs: the hash of the policy id is a parameter, and an invalid last-sync date counts as none.
- Extraction jobs and AI adapters, coverage summaries, sharing, profiles, portals, authentication, encryption, the user interface: single-pass checks, foreign calls or easy invariants.
