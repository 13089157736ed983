# DayOrder: a verified model of synchronisation and its neighbours

DayOrder is a personal planner. Its web client works offline: it keeps a cache of entities and a queue of mutations in
the browser, and synchronises both with an API server that holds versioned rows, an append-only change feed and an
idempotency table. This project models that protocol, and the algorithms around it, and proves what they are for.

**The protocol.** `Entities`, `OfflineClient`, `SyncServer` and `SyncMachine` describe one client, one server, the other
devices of the account and a network that delays, loses, repeats and reorders requests and replies. Every browser
transaction and every server transaction is one atomic step; where the engine awaits, any other step may come in
between. A row keeps every body it ever had, so that an id and a version determine the data. `SyncInvariant`,
`ClientSteps`, `PullSteps` and `Convergence` prove an inductive invariant over all runs and what follows from it;
`NewCreates` and `DroppedCreate` treat its one exception that is the queue's own doing. `LocalFirst`, `LocalEdits` and
`LocalCycles` prove that with a single device the whole machinery refines the plain map of the user's edits, made from
the app state in memory; `LocalRuns` exhibits such a run, and what happens where its guard is broken. `Queue`,
`SyncBatch`, `PushResults`, `OnceByVersion` and `Snapshot` add the queue's shape, the server's batch loop, what its
answers do to the queue, at-most-once effects, and the page-by-page snapshot behind a rebuild; `SnapshotHoles` and
`RebuildRuns` run into what that snapshot leaves out.

**The transactions as they run.** `OfflineStore` is the browser's account stores as a class whose methods loop over puts
and deletes; `FeedPaging`, `SyncBatch`, `Snapshot` and `Commands` hold the loops of the paging, batch, listing and
command code. Each is proved against the function that the protocol proofs reason about.

**The neighbours.** `Compaction`, `OptimisticOverlay` and `QueueCascade` (what the queue means, and what of it arrives
next to the server's cascade), `PullPages` (what a page may do to an entity), `ExactlyOnce` (the idempotency table under
retries), `Planner`, `PlannerProperties` and `Candidates` (the daily planner), `StateDiff`, `GoalDeletion` and
`DiffExecution` (state changes as mutations, and their execution), `Reminders`, `ReminderDelivery` and `NoteLinks`
(reconciliation and delivery), `AgentChanges`, `AgentUndo` and `AgentDecisions` (apply and undo), `CursorBytes` and `SyncCursors`
(tokens), `MergePatch` (settings).

## Where the code needs a condition

Some properties one would expect hold only under a condition. Each is stated as an equivalence, or with a run that shows
what happens otherwise.

- A rebuild leaves out exactly the untouched milestones of goals that are on no page, and the tags behind the first 500
  (`Snapshot.SnapshotComplete`). A goal is on no page if it is written while goals are listed by time of update, and its
  old place is beyond where the next page starts (`Snapshot.MovedRowListedExactly`, `Snapshot.MilestoneReadExactly`). The
  catch-up does not repair it (`RebuildRuns.HolesInRun`).
- A delete right after a create compacts to nothing. If the create was of an entity that the server has, with no feed
  entry ahead, that entity stays on the server and out of the cache (`ClientSteps.FreedIsCurrentExactly`,
  `DroppedCreate.DroppedCreateIsLost`). As long as only new entities are created this does not happen
  (`NewCreates.NewCreatesConverge`).
- With a single device, every completed cycle ends in sync as long as edits are made between cycles and not on an entity
  whose mutation was sent but not settled, an edit that opens a record is made on the version in the cache or is of a
  new entity, the claim of an unsettled mutation does not expire, and rebuilds leave nothing out (`LocalFirst.Guarded`,
  `LocalCycles.LocalFirstRefinement`). Memory is reloaded only when a cycle completes, so that after a failed one an
  edit may be made on a stale version; it clashes exactly then (`LocalRuns.OpeningEditClashesExactly`,
  `LocalRuns.StaleEditConflicts`). Breaking the guard elsewhere at a single step can leave a conflict or a rejection
  (`LocalRuns.ExpiredClaimStrands`, `LocalRuns.EditedSentIsRejected`, `LocalRuns.EditedMidCycleConflicts`).
- A record made before a pull becomes a conflict exactly if a page covers a feed entry about its entity, be it the echo
  of this device's own push (`LocalRuns.PageConflictsExactly`).
- Deleting a goal writes its milestones and tasks, too. A queued mutation of one of them clashes exactly if it comes
  after the deletion of the goal (`QueueCascade.QueueClashesExactly`). Replacing the whole state, by a reset or an
  import, sends the deletions of goals first, so the mutations of their synchronised milestones and tasks are refused
  and their tasks stay; nor does it bring back entities the server has deleted (`DiffExecution.AcceptedExactly`,
  `DiffExecution.DiffArrivesExactly`).
- Deleting a goal that was never synchronised leaves the pending creates of its milestones and tasks, which name it
  (`DiffExecution.GoalDeletionArrivesExactly`).
- A rebuild's overlay depends on the order of the mutation index unless no two records about one entity lay different
  things over it (`OptimisticOverlay.IndexOrderIrrelevantExactly`). A pending record beside a rejected one may.
- An edit without an optimistic entity can leave the cache at odds with its record
  (`OptimisticOverlay.EditKeepsOverlayExactly`).
- A delete of an entity that was never synchronised and has no pending create goes out with base 0, which the server
  refuses (`StateDiff.ShapedExactly`, `Queue.ShapeKeptExactly`).
- A claim protects its mutation id for 30 days, and no longer (`ExactlyOnce.RepeatTakesEffectExactly`,
  `ExactlyOnce.ExpiredRepeatsTakeEffect`); after that the entity versions do (`OnceByVersion.ItemTakesEffectOnce`).
- A delivery event carries no version of its reminder. A superseded one is without effect until the reminder is due again
  at its time (`ReminderDelivery.EarlierDraftCurrentExactly`), which moving an event away and back brings about
  (`ReminderDelivery.MovedAwayAndBack`); even so each schedule is delivered at most once.
- A task that the planner keeps in place is planned for its estimate, not for its stored window; that is safe on every
  calendar exactly if the window is long enough (`PlannerProperties.KeptIsSafeExactly`). The search can overlook a free
  stretch with less than a quarter of an hour to spare (`PlannerProperties.QuarterIsNeeded`).
- The settings merge keeps nulls inside a patch object that lands on a missing value
  (`MergePatch.MergeIsStandardExactly`); the validation of the result refuses exactly those patches
  (`MergePatch.AcceptedExactly`).
- An event update does not validate its reminders as creation does; a reminder wanted twice, or one that cannot be
  stored, makes the whole update fail (`Reminders.UpdateReminders`). Every update arms all reminders again, delivered
  ones included (`Reminders.ReconciledStaysIndexed`).

## Model

| member | source | states |
|---|---|---|
| Convergence.CaughtUp | apps/web/src/sync/engine.ts:112-139 | over every interleaving of edits, other devices, snapshot reads and the network: once a page without successor is applied, every cacheable entity without a record is cached as the server held it at that page, or is absent and either a milestone or tag the snapshot left out, or one whose pending create a delete dropped while the server had it with no entry ahead |
| Convergence.NothingMadeUp | apps/web/src/sync/pull.ts:49-56 | at any time, the cached copy of an entity without a record is a version the server has had, unless the server deleted it since |
| Convergence.RunsKeep | apps/web/src/sync/engine.ts:119-139 | the protocol invariant holds in every world of every run |
| NewCreates.NewCreatesConverge | apps/web/src/store/commands.ts:137-146 | over runs whose creates are of new entities the last exception is void |
| DroppedCreate.DroppedCreateIsLost | apps/web/src/offline/mutations.ts:77-95 | otherwise it is not: a run ends caught up, queue empty, with an entity live on the server, absent from the cache and without a feed entry ahead |
| LocalCycles.LocalFirstRefinement | apps/web/src/sync/engine.ts:119-139 | one device, edits made from memory, under the guard of `LocalFirst.Guarded`: every completed cycle ends with an empty queue and with memory, cache, server and the map of the user's edits equal, whatever was lost, failed or repeated, and whichever claims of settled mutations expired |
| LocalCycles.NoEditLost | apps/web/src/sync/push.ts:34-76 | one device, under the same guard: at any time the server overlaid with the queue is the user's map |
| LocalFirst.ExecuteFirst | apps/api/internal/service/command.go:141-189 | the first execution of a single-row command finds its record ready, commits it, and leaves other entities as they were |
| LocalFirst.ExecuteRepeats | apps/api/internal/service/command.go:148-154 | a repeated execution changes nothing |
| LocalFirst.ExecuteSpent | apps/api/internal/db/query/sync.sql:34-49 | once the claim of a settled mutation has expired, a late repeat is a version conflict that changes nothing |
| LocalRuns.LostReplyIsRepaired | apps/web/src/sync/engine.ts:119-139 | there is a run in which the reply to a push is lost, and the next cycle completes with the edit synchronised |
| LocalRuns.ExpiredClaimStrands | apps/api/internal/service/idempotency.go:57-88 | a run that keeps the guard but for one step, the expiry of an unsettled mutation's claim: the cycle ends with the record a conflict |
| LocalRuns.ExpiryStrands | apps/api/internal/db/query/sync.sql:34-49 | in general, an executed and unsettled mutation whose claim expires clashes with every later state of the server |
| LocalRuns.EditedSentIsRejected | apps/web/src/offline/mutations.ts:34-49 | a run that keeps the guard but for one edit of an executed, unsettled entity: the cycle ends with the record rejected and the old payload everywhere |
| LocalRuns.ReEditRefusedExactly | apps/api/internal/service/idempotency.go:81-87 | in general, the server refuses an edited mutation whose first form it has executed exactly if the edit changed operation or payload |
| LocalRuns.StaleEditConflicts | apps/web/src/store/AppStore.tsx:170-206 | a run that keeps the guard but for one edit made after a failed pull, from memory that still shows the entity unsynced: the next cycle completes with the record a conflict |
| LocalRuns.OpeningEditClashesExactly | apps/web/src/store/commands.ts:132-155 | in general, an edit that opens a record clashes with the server exactly if it is neither made on the version in the cache nor the create of a new entity |
| LocalRuns.EditedMidCycleConflicts | apps/web/src/sync/pull.ts:30-47 | a run that keeps the guard but for one edit between push and pull: the echo of an earlier push makes the new record a conflict |
| LocalRuns.PageConflictsExactly | apps/web/src/sync/pull.ts:30-47 | in general, a pending record becomes a conflict by a page exactly if the page covers a feed entry about its entity |
| SyncInvariant.CommitRepliesAhead | apps/api/internal/service/command.go:156-188 | whatever an unsettled mutation wrote is still ahead of the client's cursor |
| SyncInvariant.GrowthKeeps | apps/api/internal/postgres/sync_repository.go:21-38 | server growth keeps every claim about what is already there |
| ClientSteps.SettleViews | apps/web/src/sync/push.ts:40-62 | settling a batch keeps every record-free entity current or ahead of the cursor, and truthful |
| ClientSteps.EnqueueViews | apps/web/src/offline/mutations.ts:77-121 | an edit at any moment keeps the record-free entities so, but for the live ones whose create it drops |
| ClientSteps.FreedIsCurrentExactly | apps/web/src/offline/mutations.ts:77-95 | an entity that an edit leaves without a record is current or ahead of the cursor exactly unless the edit drops the create of a live entity with no entry ahead |
| PullSteps.EffectOfFaithful | apps/web/src/sync/pull.ts:27-57 | after any stretch of the feed, a copy is truthful, and current once the latest entry about it is in |
| PullSteps.ApplyReadPageKeeps | apps/web/src/sync/pull.ts:19-69 | applying a page, read from a server that may since have moved on, keeps the protocol invariant |
| PullSteps.ReplaceAt | apps/web/src/offline/cache.ts:72-101 | after a rebuild, a record-free entity is as the server has it, ahead of the cursor, or left out by the snapshot |
| SyncServer.CommitAllGrows | apps/api/internal/db/query/sync.sql:4-16 | commits keep rows, versions and feed consistent and only ever extend them |
| SyncServer.ViewStable | apps/api/internal/service/sync.go:87-110 | an entity changes only together with a new feed entry |
| SyncServer.LastPageIsLast | apps/api/internal/service/sync.go:244-256 | after a page without successor no entry is left |
| OnceByVersion.ItemTakesEffectOnce | apps/api/internal/db/query/sync.sql:34-49 | over every run with claims expiring at any time, an item that took effect clashes ever after and never takes effect again |
| OnceByVersion.OneEffectPerBase | apps/api/internal/db/query/domain.sql:176-194 | of all updates and deletes of one entity on one base version at most one takes effect |
| Queue.QueueInvariant | apps/web/src/offline/mutations.ts:56-142 | in every world of every run: at most one pending record per entity, sequences distinct and below the next one |
| Queue.ShapeKeptExactly | apps/web/src/offline/mutations.ts:34-49 | enqueueing keeps creates at base 0 and all others at base 1 or more exactly for compacted or fitting edits |
| SyncBatch.SyncMutations | apps/api/internal/httpapi/sync_handlers.go:81-149 | the batch loop: size limit, one result per item in order, as `Results` has them, and only validating items reach the services |
| SyncBatch.ResultsSay | apps/api/internal/httpapi/sync_handlers.go:101-146 | every result is its item's own answer: success exactly if the services did it, a conflict exactly if the current entity was read or is gone, and a refusal with its code otherwise |
| SyncBatch.AcceptedExactly | apps/api/internal/httpapi/sync_handlers.go:101-114 | an item is accepted exactly if it is well formed and comes after every item accepted before it |
| SyncBatch.NothingRefusedExactly | apps/api/internal/httpapi/sync_handlers.go:174-189 | nothing is refused exactly if the sequences increase and all items are well formed: ids, base, payload object |
| SyncBatch.BatchesPass | apps/web/src/sync/push.ts:66-76 | over any run of well-shaped edits with ids, no item of any batch is refused for number, order or shape |
| PushResults.BatchSettled | apps/web/src/sync/push.ts:40-62 | an answered mutation leaves the queue exactly if the server took it; otherwise it stays with the user's work and the answer; unanswered ones stay as they are |
| PushResults.CacheTakesAnswers | apps/web/src/sync/push.ts:44-52 | a cache entry changes only to what a successful answer to a create or update shows |
| OfflineStore.AccountStores.EnqueueMutations | apps/web/src/offline/mutations.ts:56-137 | the transaction with its index of pending records does to the stores what the edits, one by one, do in the protocol |
| OfflineStore.AccountStores.ApplySyncChangesPage | apps/web/src/sync/pull.ts:19-69 | the loop over changes and records has the page's effect of the protocol |
| OfflineStore.AccountStores.MarkConflicts | apps/web/src/sync/pull.ts:30-47 | all non-rejected records of the entity, and no other, become conflicts, and the loop says whether there was one |
| OfflineStore.AccountStores.ApplyPushResponse | apps/web/src/sync/push.ts:34-64 | the settlement loop has the protocol's effect |
| OfflineStore.AccountStores.ReplaceAccountEntities | apps/web/src/offline/cache.ts:72-107 | delete, put and overlay loops amount to the rebuild of the protocol, for the order the index returned |
| OfflineStore.AccountStores.PendingQueue | apps/web/src/offline/mutations.ts:139-142 | the pending records, all of them, in sequence order |
| OfflineStore.PushBatches | apps/web/src/sync/push.ts:66-76 | the slices of a queue: in order, complete, full but for the last |
| Snapshot.ListPage | apps/api/internal/service/goal.go:125-159 | one row more than the page decides whether there is more and where to go on |
| Snapshot.AllCursorPages | apps/web/src/sync/engine.ts:37-46 | the loop collects the pages up to and including the first without successor |
| Snapshot.StaysPutReadOnce | apps/api/internal/db/query/domain.sql:19-33 | a row whose place does not change is read exactly once, however the other rows come, go and move between pages |
| Snapshot.SnapshotComplete | apps/web/src/sync/engine.ts:48-75 | of everything live and untouched since the bootstrap, the snapshot holds exactly what is neither a milestone of a goal on no page nor a tag behind the first 500; such a goal was written meanwhile |
| Snapshot.SnapshotMeetsGuard | apps/web/src/sync/engine.ts:112-116 | such a snapshot meets the guard of the protocol's rebuild step, and leaves nothing out if no goal was written and tags are few |
| Snapshot.MovedRowListedExactly | apps/api/internal/db/query/domain.sql:19-33 | a row that moves to the front before page n is read is listed exactly if its old place is not beyond where page n starts |
| Snapshot.MilestoneReadExactly | apps/web/src/sync/engine.ts:59-65 | an untouched milestone of such a goal is in the snapshot exactly under that condition |
| Snapshot.UnlistedIsLeftOut | apps/web/src/sync/engine.ts:48-75 | the protocol's set of missed entities is exactly what the reads left out |
| RebuildRuns.HolesInRun | apps/web/src/sync/engine.ts:112-117 | for every page size there is a run of the protocol, with a snapshot read page by page, that ends caught up while a milestone of a moved goal and the 501st tag are live on the server and absent from the cache |
| FeedPaging.Changes | apps/api/internal/service/sync.go:176-257 | one request: size check, listing one more, resolving in place; the result is the protocol's page |
| FeedPaging.ChangesSay | apps/api/internal/service/sync.go:205-243 | a change has its entry's place, entity and version, shows the entity as it is, and is a removal exactly for deletes, agent kinds and what is gone |
| FeedPaging.PullChanges | apps/web/src/sync/pull.ts:71-81 | for every page size from 1 to 500 the loop ends, having read all later entries in order, once each |
| FeedPaging.NoEntrySkippedOrRepeated | apps/api/internal/service/sync.go:205-251 | however the feed grows between the pages, together they list a gapless stretch of it, once |
| PullPages.NothingDropped | apps/web/src/sync/pull.ts:27-57 | the last change of each cached-type entity in a page is reflected in the cache, or told by every record held on it with the copy kept |
| PullPages.QueuedWorkKept | apps/web/src/sync/pull.ts:32-45 | no record is lost, added or rewritten by a page |
| PullPages.VersionsNeverDecrease | apps/web/src/sync/pull.ts:50-56 | cached versions go down only by a delete |
| PullPages.PageIdempotent | apps/web/src/sync/pull.ts:49-57 | applying a page again leaves the entity store as it is |
| PullPages.ServerPagesCohere | apps/api/internal/service/sync.go:213-231 | all changes of one entity in a page agree on deleted or same data, which is no older than the entry |
| Compaction.CompactionPreservesMeaning | apps/web/src/offline/mutations.ts:34-49 | for any edits on any entities over any queue: replaying the compacted queue on the server's map gives what replaying the raw edits gives |
| Compaction.EditMeansItself | apps/web/src/offline/mutations.ts:34-49 | one edit changes the queue's meaning as it says, exactly unless it drops a create of an entity the server has |
| Compaction.EditDecidesRecord | apps/web/src/offline/mutations.ts:34-49 | what one edit leaves pending on its entity, for every operation over every operation: payload, optimistic entity, place in the queue |
| Compaction.NewCreatesDropNothing | apps/web/src/offline/mutations.ts:35-35 | creates under new ids never lead to such a drop |
| Compaction.SurvivorsKeepFirstBase | apps/web/src/offline/mutations.ts:99-120 | every surviving record keeps base, sequence and entity of the edit that opened it |
| QueueCascade.QueueClashesExactly | apps/api/internal/db/query/domain.sql:122-138 | of records that fit the server one by one, one clashes while the queue is executed in order exactly if an earlier one deletes the goal of its milestone or task |
| QueueCascade.OfflineWorkArrives | apps/api/internal/postgres/goal_repository.go:75-98 | edits compacted into an empty queue and executed with the server's cascade leave of every entity what the raw edits mean, but for overtaken records and for what the deletion of a goal further back cascades to |
| OptimisticOverlay.EditsKeepOverlay | apps/web/src/offline/mutations.ts:77-121 | after any edits the cache is the last server state overlaid with the pending records |
| OptimisticOverlay.EditKeepsOverlayExactly | apps/web/src/offline/mutations.ts:81-98 | one edit keeps it so exactly unless it drops a known create or brings no optimistic entity where one is needed |
| OptimisticOverlay.RebuildKeepsOverlay | apps/web/src/offline/cache.ts:79-91 | a rebuild lays the pending records over the new snapshot, in any order of the index |
| OptimisticOverlay.IndexOrderIrrelevantExactly | apps/web/src/offline/cache.ts:84-91 | the order of the index is irrelevant exactly if no two records about one entity lay different things over it |
| Commands.Database.Execute | apps/api/internal/database/transaction.go:48-82 | the retry loop: at most three attempts, rollback in between, retry only on serialisation failures and deadlocks, and only if the wait is not interrupted |
| Commands.RunBody | apps/api/internal/service/command.go:141-189 | claim, effect, signed audits, feed, outbox and stored response in one transaction, in the program's order of checks |
| Commands.Tx.Claim | apps/api/internal/postgres/idempotency_repository.go:21-53 | a missing or expired row is taken, a live one is returned, an inactive device is refused |
| Commands.CompletedOnce | apps/api/internal/postgres/idempotency_repository.go:55-74 | under the id of a claim just taken, exactly the claimed row gains the response, and a second response is not stored |
| Commands.FingerprintInjective | apps/api/internal/service/command.go:136-139 | the fingerprint tells requests apart |
| ExactlyOnce.AllOrNothing | apps/api/internal/service/command.go:156-188 | an attempt commits rows, claim, response, feed, audits and outbox together, or nothing |
| ExactlyOnce.EverythingRecorded | apps/api/internal/service/command.go:156-188 | an attempt that takes effect adds to feed, audit trail and outbox exactly what the operation reports, every entry in order and under the user, audits with the request's id where they have none |
| ExactlyOnce.TakesEffectExactly | apps/api/internal/service/command.go:141-189 | an attempt that reaches its commit takes effect exactly for an active device, a claim not taken, and an operation that succeeds with something to record in shape; what it is refused as otherwise |
| ExactlyOnce.RetriesCommitOnce | apps/api/internal/database/transaction.go:58-81 | a command with its retries commits at most one effect; a failure means none, unless a commit went unconfirmed |
| ExactlyOnce.FirstDecisiveAttempt | apps/api/internal/database/transaction.go:58-81 | the caller sees the first attempt that is not a retryable failure, or the third, or an interrupted wait; the attempts before left nothing behind |
| ExactlyOnce.EffectsAreApart | apps/api/internal/service/idempotency.go:57-88 | over any run, two effects under one user, device and mutation id are at least 30 days apart |
| ExactlyOnce.RepeatTakesEffectExactly | apps/api/internal/postgres/idempotency_repository.go:21-53 | in any reachable state, a request under an id that has taken effect takes effect again exactly if 30 days have passed |
| ExactlyOnce.ExpiredRepeatsTakeEffect | apps/api/internal/service/idempotency.go:57-88 | a run in which one request takes effect twice |
| ExactlyOnce.NeverIncomplete | apps/api/internal/service/idempotency.go:84-86 | every committed claim has a response, so the incomplete branch is never taken |
| ExactlyOnce.RepeatsAreAnswered | apps/api/internal/service/idempotency.go:81-87 | a live repeat gets the stored response and changes nothing; a different request under the id is refused and changes nothing |
| Planner.RoundUp | apps/web/src/domain/planning.ts:24-30 | the next quarter of an hour, strictly later |
| Planner.SearchSlot | apps/web/src/domain/planning.ts:74-80 | the collision-skipping loop ends, at the specified start |
| Planner.BuildTodayPlan | apps/web/src/domain/planning.ts:38-98 | the plan of all candidates in order |
| PlannerProperties.DayPlanIsSafe | apps/web/src/domain/planning.ts:61-95 | at most three plans, of clamped length, after now, by 20:00, clear of padded events, pairwise disjoint; searched ones ten minutes after all earlier ones |
| PlannerProperties.PlannedByTheClock | apps/web/src/domain/planning.ts:42-86 | with fewer than three plans, a task not kept in place is planned whenever a stretch, a quarter of an hour clear of every event of the day and clear of the plans, has its duration plus a quarter less a millisecond, ends by 20:00, and starts no earlier than 08:00, the next quarter, and ten minutes after every plan; it starts less than a quarter into that stretch, or before |
| PlannerProperties.KeptExactly | apps/web/src/domain/planning.ts:69-74 | a task stays where it is scheduled exactly if that is later today, its stored window ends by 20:00, a quarter clear of every event and clear of the plans, its estimate fits, and fewer than three tasks are planned |
| PlannerProperties.CursorIsEarliest | apps/web/src/domain/planning.ts:42-90 | searches start at the earliest time that is 08:00 or later, a quarter of an hour after now, and ten minutes after every plan |
| PlannerProperties.PlannedIfRoom | apps/web/src/domain/planning.ts:74-85 | in any state, a task not kept in place is planned, free of all reservations and early in that stretch or before it, whenever a free stretch at or after the cursor and ending by 20:00 is at least its duration plus a quarter of an hour, less a millisecond, long |
| PlannerProperties.QuarterIsNeeded | apps/web/src/domain/planning.ts:76-79 | on every day with room left, for every task not scheduled, there are two events between which it is overlooked although the stretch is only one millisecond short of that |
| PlannerProperties.KeptIsSafeExactly | apps/web/src/domain/planning.ts:69-74 | keeping a task is safe on every calendar exactly if its stored window is as long as its clamped estimate |
| PlannerProperties.KeptInPlace | apps/web/src/domain/planning.ts:69-74 | a planned task stays at its stored start exactly if that can be kept, and otherwise is not placed before the cursor |
| PlannerProperties.PlansAndDeferredPartition | apps/web/src/domain/planning.ts:61-95 | plans and deferred are the candidates, each as often as it occurs, both in order |
| Candidates.Choose | apps/web/src/domain/planning.ts:47-56 | the eligible tasks, all of them, sorted by the comparator, those level with each other in their old order |
| Candidates.ConsideredExactly | apps/web/src/domain/planning.ts:47-48 | eligible are exactly the open tasks that are unscheduled, scheduled for today, or due today, each as often as it occurs |
| Candidates.ComparatorIsConsistent | apps/web/src/domain/planning.ts:49-56 | the comparator is a total preorder |
| Candidates.OrderMeans | apps/web/src/domain/planning.ts:32-36 | what is scheduled later today comes first by start, the rest by descending rank |
| Candidates.OtherwiseEqual | apps/web/src/domain/planning.ts:32-36 | of two otherwise equal tasks the important one comes first, the one whose goal is in worse health, the one due earlier, the one created earlier |
| Candidates.Weighing | apps/web/src/domain/planning.ts:32-36 | by how many days a due time outweighs a goal in any health, and importance |
| StateDiff.PrepareMutations | apps/web/src/store/commands.ts:132-155 | exactly the differences of two states, one mutation per entity, in resource order |
| StateDiff.ReferencesComeFirst | apps/web/src/store/commands.ts:154 | what others refer to comes before them: goals first, records before tasks, everything that can be linked before notes |
| StateDiff.DiffReplays | apps/web/src/store/commands.ts:137-153 | the payloads of the diff turn the old state into the new one, versions and cascade aside |
| StateDiff.ShapedExactly | apps/web/src/store/commands.ts:140-152 | the mutations are well shaped exactly if no entity that disappears, and is not left to the server's cascade, was never synchronised |
| GoalDeletion.GoalDeletionReplays | apps/api/internal/postgres/goal_repository.go:75-98 | replaying the payloads of the diff of a goal deletion with the server's cascade turns the old state into the new one, versions aside |
| DiffExecution.AcceptedExactly | apps/api/internal/db/query/domain.sql:122-138 | executed in order on the server the old state was read from, a mutation of the diff is accepted exactly if it is well shaped, does not create under a deleted id, and is not about a milestone or task whose goal the diff deletes |
| DiffExecution.DiffArrivesExactly | apps/web/src/store/AppStore.tsx:294-299 | an entity arrives as the new state has it exactly if it does not reuse a deleted id, and keeps its goal or is to be as the cascade leaves it |
| DiffExecution.GoalDeletionArrivesExactly | apps/web/src/store/commands.ts:142-152 | the deletion of a goal arrives exactly if the goal was synchronised; otherwise its synchronised milestones and tasks stay, and in any case no mutation is about them |
| GoalDeletion.DeletionTurns | apps/web/src/store/reducer.ts:112-116 | what the reducer does to every entity |
| GoalDeletion.NothingDangles | apps/web/src/store/reducer.ts:112-116 | nothing refers to a deleted goal any more |
| Reminders.ValidateReminderInputs | apps/api/internal/service/calendar.go:284-297 | accepted exactly if all inputs are valid and distinct |
| Reminders.UpdateReminders | apps/api/internal/service/calendar.go:190-227 | succeeds exactly for distinct, storable reminders; then the live ones are the desired ones, survivors keep identity, one feed change per reminder touched, one draft per live one |
| Reminders.ReconciledStaysIndexed | apps/api/internal/db/query/domain.sql:304-310 | one live reminder per slot again, survivors with their id one version later, all armed for the new start |
| Reminders.ArmedBeforeStart | apps/api/internal/db/query/domain.sql:304-310 | every live reminder is armed its offset in minutes before the start, and its draft says so for its id, event and channel; the larger the offset, the earlier |
| Reminders.FeedTellsAll | apps/api/internal/service/calendar.go:194-227 | the feed tells of every reminder touched under its new version: survivors updated, new ones created, the others deleted |
| ReminderDelivery.OneCurrentDraftEach | apps/api/internal/service/calendar.go:303-310 | of every live reminder there is exactly one outbox draft, and it carries the current schedule |
| Reminders.RemovedReminders | apps/api/internal/service/calendar.go:221-227 | every live reminder is accounted for once: it survives under its id, or is removed under its id, cancelled and deleted, two versions on |
| ReminderDelivery.Handle | apps/api/internal/worker/reminder.go:81-120 | mail is sent exactly for a current delivery of a live event and an active account; an effect needs the delivery to be current when recorded, too; what makes the outbox try again |
| ReminderDelivery.ResultDecides | apps/api/internal/postgres/reminder_delivery_repository.go:59-137 | a recorded delivery closes the reminder to every delivery event, a recorded failure leaves it open to a retry |
| ReminderDelivery.OtherDraftsAreVoid | apps/api/internal/postgres/reminder_delivery_repository.go:132-137 | a delivery event alters a reminder only if it names its id, event, channel and present schedule, and the reminder is live and open; then it is recorded |
| ReminderDelivery.SupersededNeverAlters | apps/api/internal/worker/reminder.go:139-147 | over any run of updates, removal and deliveries, dropping all delivery events of a schedule that is not the current one changes nothing |
| ReminderDelivery.EarlierDraftCurrentExactly | apps/api/internal/postgres/reminder_delivery_repository.go:132-137 | after any run, an earlier draft is current exactly if the reminder was not removed, is due again when the draft says, and was not delivered since |
| ReminderDelivery.MovedAwayAndBack | apps/api/internal/service/calendar.go:303-310 | moving an event away and back revives a superseded draft |
| ReminderDelivery.DeliveredOncePerSchedule | apps/api/internal/postgres/reminder_delivery_repository.go:132-137 | over any run, a reminder is delivered at most once for each of its schedules, and never once removed |
| NoteLinks.ReplaceNoteLinks | apps/api/internal/postgres/content_repository.go:253-286 | each desired relation is there exactly once, in its old row if it had one |
| NoteLinks.RowsAre | apps/api/internal/postgres/content_repository.go:253-286 | the links afterwards are exactly the desired ones, old rows kept, a new one under the id of the last link that asks for it |
| NoteLinks.ReplacingAgainKeepsRows | apps/api/internal/postgres/content_repository.go:253-286 | replacing again by the same relations changes no row |
| NoteLinks.AddThenRestore | apps/api/internal/postgres/content_repository.go:253-286 | adding a link and replacing by the old relations gives back the old rows |
| AgentChanges.Repository.Accept | apps/api/internal/postgres/agent_repository.go:78-124 | a change is applied, marked and audited together, its run completed with its last pending change, or nothing happens |
| AgentDecisions.AcceptedExactly | apps/api/internal/postgres/agent_repository.go:78-124 | a change is applied exactly if it is pending at the version seen, its run waits and its target takes it; it is marked one version on, and its run waits on exactly for another pending change |
| AgentDecisions.RescheduledExactly | apps/api/internal/postgres/agent_repository.go:494-527 | a task at the proposed version is rescheduled exactly if the patch is well formed and its last operations leave no end without a start or before it; the row it then has |
| AgentDecisions.ArchivedExactly | apps/api/internal/postgres/agent_repository.go:621-639 | a record is archived exactly by one operation that gives it a time; the row it then has |
| AgentDecisions.LinkedExactly | apps/api/internal/postgres/agent_repository.go:641-683 | a note is linked exactly by one operation that adds a live other entity not linked yet, to fewer than fifty; the row it then has |
| AgentDecisions.UnaddressedExactly | apps/api/internal/postgres/agent_repository.go:473-492 | of changes without a row at the proposed version, exactly the decoded creations of tasks and events are applied |
| AgentDecisions.PatchExactly | apps/api/internal/postgres/agent_repository.go:503-519 | a schedule patch is taken exactly if all its operations are well formed, and the last one on each end counts |
| AgentChanges.PatchSchedule | apps/api/internal/postgres/agent_repository.go:503-519 | the patch loop, with its malformed cases |
| AgentChanges.Repository.Undo | apps/api/internal/postgres/audit_repository.go:95-131 | an undo writes back what the audit snapshot serves for, or nothing happens |
| AgentChanges.AuditUndoTarget | apps/api/internal/postgres/audit_repository.go:257-273 | the one undoable entity besides the run |
| AgentDecisions.UndoExactly | apps/api/internal/postgres/audit_repository.go:95-255 | over any run between a change and its undo, the undo goes through exactly if the audited snapshots fitted, the target has not moved and the version seen is its own, and of a note what it linked before is live; a created target needs no snapshot from before |
| AgentDecisions.OnlyChangesAreUndone | apps/api/internal/postgres/audit_repository.go:95-112 | nothing is undone but an applied change of one live undoable entity, at the version seen |
| AgentUndo.ApplyThenUndo | apps/api/internal/postgres/audit_repository.go:133-255 | apply, anything, undo: a successful undo restores the target's content exactly, two versions on, body and link rows included; created targets are deleted; nothing else moves |
| AgentUndo.NoSecondUndo | apps/api/internal/postgres/audit_repository.go:107-112 | after a successful undo every further undo of that event fails |
| AgentUndo.AppliedOnce | apps/api/internal/postgres/agent_repository.go:84-86 | a change is applied at most once |
| AgentUndo.ChangesOnlyItsPart | apps/api/internal/postgres/agent_repository.go:473-683 | an applied change touches only its part of the target (schedule, archiving, one more link), one version on |
| AgentUndo.LastPatchDecides | apps/api/internal/postgres/agent_repository.go:503-519 | the last patch operation on an end of the schedule decides it |
| AgentUndo.UnpatchedStays | apps/api/internal/postgres/agent_repository.go:503-519 | an end of the schedule that no operation is about stays |
| AgentUndo.LinksRestored | apps/api/internal/postgres/audit_repository.go:239-252 | the restored links are those of the version before, row by row |
| CursorBytes.PutUint64 | apps/api/internal/service/sync.go:282-283 | eight big-endian bytes at an offset, the rest of the buffer unchanged |
| CursorBytes.BigEndianRoundTrip | apps/api/internal/service/sync.go:303-304 | reading inverts writing |
| CursorBytes.Base64RoundTrip | apps/api/internal/service/sync.go:286-290 | unpadded base64url decoding inverts encoding for every byte sequence |
| SyncCursors.EncodeCursor | apps/api/internal/service/sync.go:275-287 | the buffer filled at its offsets is the signed payload |
| SyncCursors.CursorRoundTrip | apps/api/internal/service/sync.go:289-313 | a token gives back its position exactly to its own user, if issued from 1970 to five minutes ahead |
| SyncCursors.AcceptedIsIssued | apps/api/internal/service/sync.go:298-307 | an accepted token decodes to the bytes the server would issue to that user |
| SyncCursors.ListingRoundTrip | apps/api/internal/service/resource_cursor.go:31-70 | a listing token gives back its position exactly to its own user, for scopes of the same hash prefix and times from 1970 |
| MergePatch.MergeJSONObject | apps/api/internal/service/settings.go:86-105 | the copying and patching loops compute the recursive merge |
| MergePatch.MergeIsStandardExactly | apps/api/internal/service/settings.go:91-103 | the merge is MergePatch of section 2 of RFC 7396, at every depth, exactly if no null sits in a patch object that lands on a missing or non-object value |
| MergePatch.MergeIsIdempotentExactly | apps/api/internal/service/settings.go:91-103 | sending the patch again changes nothing, exactly under that condition |
| MergePatch.AcceptedPatchesFollowTheStandard | apps/api/internal/service/settings.go:41-74 | every accepted settings patch acts as the standard says, and can be sent again |
| MergePatch.AcceptedExactly | apps/api/internal/service/settings.go:106-165 | a patch on valid settings is accepted exactly if it is valid and clean |
| MergePatch.PlainSettingExactly | apps/api/internal/service/settings.go:106-165 | which single settings are accepted: energies one to five, flags, two data modes, focus areas, and nulls |

## Left out

- Convergence.CaughtUp: claims nothing about entities with a mutation record, because rejected and conflicting edits are not rolled back, and excepts milestones and tags the snapshot left out and entities whose pending create was dropped.
- LocalCycles.LocalFirstRefinement: every command writes the one row of its item and every payload is accepted as sent, which drops event updates with reminders and the goal cascade; and the guard of `LocalFirst.Guarded` is assumed (`Snapshot.UnlistedIsLeftOut` says when a rebuild leaves something out).
- LocalCycles.NoEditLost: under the same assumptions.
- QueueCascade.OfflineWorkArrives: the goal cascade is modelled, the reminders of an event update are not; payloads are accepted as sent.
- DiffExecution.DiffArrivesExactly: the mutations of one diff are executed without compaction with what is queued already.
- Reminders.UpdateReminders: offsets from 2147483648 minutes on, which the repository's narrowing wraps, are taken as they are.
- LocalFirst.ExecuteFirst: single-row commands with accepted payloads only, for the same reason.
- SyncServer.CommitAllGrows: takes the database's contract as given: sequences commit in order per user, a write, its version and its feed entry commit together, deletes are final, and a page is listed and resolved at one moment.
- Snapshot.SnapshotComplete: takes as given that a row moves in a listing only when it is written and that an event update rewrites all its reminders; termination of a listing that others keep prepending to is not claimed.
- Commands.Database.Execute: nobody else commits between the attempts of one call; `ExactlyOnce` treats every attempt as a step of its own among everyone else's.
- ExactlyOnce.EffectsAreApart: assumes that process and database clocks differ by less than the retention time.
- AgentUndo.ApplyThenUndo: assumes of all other writers that they only make reference links of the target's type, as the content service does.
- PlannerProperties.DayPlanIsSafe: needs the stored window of a kept task to be long enough; times are integer milliseconds of a day without clock changes.
- The device id that changes after a registration conflict, the metadata write of device registration, and a second tab: one device and one tab are modelled.
- The error for a change without data, and all display timestamps: a change that is not a delete carries its entity by type.
- Expiry of feed cursors after 90 days: the protocol allows a pull to start over at any time instead.
- Foreign keys between queued mutations: entities are independent in the protocol model.
- HTTP decoding, payload validation per resource, audit sanitising, mail texts: no state or arithmetic of interest; whether an audit draft can be stored, a payload is an object or a mail can be addressed is a parameter.
- The keyed hash, the scope hash and the request hash: parameters or the identity.
- AgentChanges.Repository.Accept: the decoding of create patches is left out; the created content is a parameter.
- The reducer's other actions and the payload of each resource: the diff is proved for any two states.
- Plan texts, evidence and confidence.
