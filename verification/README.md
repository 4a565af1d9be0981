# The sync engine, modelled and proved

This project models the USN-based synchronisation engine in `server/internal/sync` for one user: the
handshake, the Redis session with its Lua scripts, pull batches and push batches. It proves what every
step keeps, what whole pull sessions deliver, and what holds over every run.

A user's tables are one map from (kind, id) to rows, plus the `sync_units` index and the collection's
cursor. The session is an optional record. Classes with the program's methods (the transaction, the
collector, the two change stores, the session store, the handler) are proved equal to functions on
those values, and the theorems are lemmas about the functions.

| file | contents |
|---|---|
| Wrappers.dfy, SyncModel.dfy | entities, changes, sizes, agreement of index and tables |
| PushApply.dfy, PushProofs.dfy, PushChangeStore.dfy | what a push batch does; USN safety and commits; the transaction as a method |
| Histories.dfy, PushIndex.dfy | changes replayed as one history: last effective writer wins; when the index agrees with the tables |
| Scans.dfy, PullBatches.dfy, Collectors.dfy, PullChangeStore.dfy | the page queries, one pull call, the collector, the pull loop as a method |
| QueueCodec.dfy, PullQueues.dfy | the stored type queue and where it comes from |
| PullSessions.dfy, PullCompleteness.dfy | whole pull sessions: what they deliver, skip, and fail on |
| PullCuts.dfy, PullEnds.dfy, PullSurvival.dfy | when a session will be complete, and when it can come to its end |
| Replicas.dfy, OwnPushes.dfy | when a client converges, and what it knows after its own push |
| Sessions.dfy, SyncHandler.dfy | the Lua scripts and the request handlers |
| RowFormats.dfy | how rows are measured and sent |
| Protocol.dfy, ProtocolRuns.dfy, ProtocolPulls.dfy | the state machine, its invariant, the lock, phases and pulls over every run |
| ProtocolHistory.dfy | what all committed pushes of a run leave in the tables, in the index and with a client |
| Answers.dfy | what every request is answered in every state, and that sessions can be seen through |
| Counterexamples.dfy, StuckRun.dfy | concrete cases for the promises that do not hold |

## Findings

**Later types are not read from the client's cursor.** The comment on `SyncCursorUSN`
(`server/internal/sync/session/sync_session.go:31-33`) says that a finished type resets the cursor to
the client's handshake cursor. The code resets it to the `StartUSN` of the current call
(`server/internal/sync/pull_change_store.go:59`, `:102`, `:110`). After a call that stopped inside a
type, the types queued behind it are therefore read from the resumed cursor. Their older rows are never
delivered (`Counterexamples.FinishedSessionCanLoseARow`). If a type has no newer row at all, the session
fails with "invalid SyncCursorUsn" until it expires (`Counterexamples.SessionCanGetStuck`,
`StuckRun.StuckSessionIsReachable`, `ProtocolPulls.StarvedSessionOnlyExpires`). The model follows the
code. The exact condition can be told from the rows before the first pull
(`PullCuts.CompleteIffCleanCuts`): take the rows since the client's cursor, type by type in queue order,
and cut them greedily into batches of the byte budget. The session will be complete iff no cut splits a
type while an older row of another type is still to come. Under the same condition it never fails and
comes to its end (`PullEnds.EndsCompleteIffCleanCuts`, `ProtocolPulls.CleanSessionFinishes`), and a client
that knows nothing newer than its cursor converges iff it holds (`ProtocolHistory.ClientCatchesUpIff`).
`PullCompleteness.CompleteIffNothingSkipped` is the step in between.

Whether a session can finish at all is told from the same rows (`PullSurvival.FinishesIffSurvives`,
`ProtocolPulls.SessionFinishesIff`): cut them in the same way, dropping after every cut inside a type the
older rows still to come. The session can come to its end iff no cut takes from a type still to come all of
its rows. Otherwise it is doomed from its handshake on (`ProtocolPulls.DoomedSessionOnlyExpires`).

Lemmas whose names begin with `Variant` show that the documented reset would be complete and free of
failures.

**The index depends on what clients push.** The server checks neither that an id keeps its kind nor that
a pushed collection has the user's collection id. `PushIndex.BatchKeepsIndexIff` says exactly when
`sync_units` agrees with the tables after a committed batch, and `ProtocolHistory.ReachableIndexIff` says
it for every reachable state and the history that led there. `Counterexamples.ForeignCollectionBreaksIndex`
is a push that breaks it. USN safety does not depend on it.

**A delete that marks no row is announced all the same.** It uses up a USN, and the reply names it, but the
server keeps no trace of it. A client that records its own batch under the USNs of the reply therefore holds
the server's rows again iff the last change to every entity takes effect
(`ProtocolHistory.OwnPushCatchesUpIff`).

**The stored cursor after a batch.** `server/internal/sync/SYNC_DOC.md` says that a batch moves it to
`assigned_usn + 1`. The code moves it to the start plus the number of changes, and so does the model.

**MySQL counts changed rows.** The connection string does not ask for found rows, so the cursor update
affects no row when it would write the value that is already there, as well as when there is no
collection. Under the invariant only the second can happen (`PushProofs.CommitOutcome`, `PushProofs.CommitsIff`).

## Assumptions

They are the conditions of `Protocol.Allowed`:

- A session id is used for one handshake only.
- One request of a session is in flight at a time. A pull, whose scripts check neither state nor number
  when they save, is one step; so is a handshake, which reads the cursor before it creates the session.
  The claim and the transaction of a push are two steps, between which anything but requests of the same
  session may happen.
- A session does not expire while its transaction is pending. `Counterexamples.LateCommitBreaksUsns`
  shows why this is needed.

Requests with other session ids, repeated or out-of-order requests, failures after a claim, rollbacks and
expiries at any other moment are unrestricted.

The theorems about a client over a run add that no collection is pushed but the user's own
(`ProtocolHistory.OwnEvent`): a foreign one makes the old row vanish without a tombstone. They assume index
agreement only in the state in which the client has pulled.

## Model

| member | source | states |
|---|---|---|
| PushApply.AcceptedAreChanges | server/internal/sync/push_change_store.go:42-52 | a batch is applied to its end iff every one of its changes is a valid upsert or a valid delete; the first invalid one rejects all |
| PushProofs.ValidIffAcceptable | server/internal/sync/push_change_store.go:117-161 | the branch structure of validation comes to conditions on the fields of the change |
| PushChangeStores.Transaction.ApplyUpsert | server/internal/sync/push_change_store.go:117-137 | accepts exactly the valid upserts, and then writes row and index entry |
| PushChangeStores.Transaction.ApplyDelete | server/internal/sync/push_change_store.go:139-161 | accepts exactly the valid deletes; a delete that marks no row does not touch the index either |
| PushChangeStores.Transaction.ApplyOne | server/internal/sync/push_change_store.go:98-115 | the branch order of applyChange comes to the flat definition of a valid change |
| PushChangeStores.PushChangeStore.ApplyPushChanges | server/internal/sync/push_change_store.go:32-63 | all changes with USNs start, start+1, ... and the cursor, or the database exactly as before, with the matching reply or error |
| PushProofs.BatchKeepsUsns | server/internal/sync/push_change_store.go:42-53 | whatever the changes are, a batch numbered above every stored USN keeps the USNs of all rows and tombstones distinct and below the end of its range |
| PushProofs.ChangeKeepsIndexIff | server/internal/sync/push_change_store.go:98-161 | sync_units keeps agreeing with the tables iff the change neither moves an id to another kind nor replaces the user's collection by one with another id |
| PushProofs.DeleteKeepsIndex | server/internal/sync/sql/scripts/delete_note.sql:2-9 | a delete, whether it marks a row or not, never disturbs the agreement |
| PushProofs.CollectionAfter | server/internal/sync/sql/scripts/upsert_collection.sql:4-25 | a user has a collection after a batch iff there was one or one was pushed; its cursor is never touched, and a new one starts with cursor 0 |
| Histories.HolderAfterChange | server/internal/sync/sql/scripts/upsert_note.sql:5-23 | what one change does to the row of any key: an upsert replaces it and clears the deleted mark, a delete marks a live row only, every other key keeps its row |
| Histories.LastUpsert | server/internal/sync/push_change_store.go:42-52 | the index of the last upsert of a key in a history, or -1 |
| Histories.FirstDelete | server/internal/sync/push_change_store.go:339-371 | the first delete of a key from an index on, or the length of the history |
| Histories.LastEffectiveWriterWins | server/internal/sync/push_change_store.go:98-161 | every key ends with the content and USN of the last change that takes effect on it, where of several deletes after the last upsert the first is the one; other keys keep their row |
| Histories.LastEffectiveOfBatch | server/internal/sync/push_change_store.go:42-52 | for one batch: the USN is start+i for change i |
| Histories.BatchIsReplay | server/internal/sync/push_change_store.go:42-52 | an accepted batch is its valid changes replayed under consecutive USNs |
| Histories.ReplayKeepsSame | server/internal/sync/push_change_store.go:42-52 | cursor and sync time have no influence on what changes do to the tables |
| PushIndex.PresentIsRow | server/internal/sync/sql/scripts/upsert_collection.sql:16-17 | which rows are there after a history, read off the history: only the collection can disappear, to a collection with another id |
| PushIndex.UnitIsLastWritten | server/internal/sync/sql/scripts/upsert_sync_unit.sql:2-14 | the index entry of an id is that of the row written last among all rows with the id, or as it was |
| RowFormats.AgreementMeans | server/internal/sync/push_change_store.go:373-388 | where the index agrees it gives the kind, USN and time of the row, and DELETE iff the row is a tombstone |
| PushIndex.ReplayKeepsIndexIff | server/internal/sync/push_change_store.go:339-388 | after any history the index agrees with the tables iff no id ends with rows of two kinds and every id a collection has lost was given to another entity by a change that takes effect later |
| PushIndex.BatchKeepsIndexIff | server/internal/sync/push_change_store.go:32-63 | the same for the database after one committed batch, from the database before and the batch alone |
| PushIndex.TypedKeepsIndex | server/internal/sync/push_change_store.go:339-388 | if every id keeps one kind for good and only the user's own collection is pushed, every history keeps the index right |
| PushProofs.CommitsIff | server/internal/sync/push_change_store.go:53-60 | a batch claimed at or above the stored cursor commits iff all its changes are acceptable, read off what the client sends, and the user has or pushes a collection; otherwise the database is unchanged |
| PushProofs.CommitOutcome | server/internal/sync/push_change_store.go:32-63 | the outcome of every transaction: rejected iff some change is unacceptable, else committed iff there is or comes a collection and the update changes its cursor |
| PushProofs.OneChangeCommitsIff | server/internal/sync/push_change_store.go:98-161 | one change of a user with a collection commits iff it is an unnumbered upsert of one of the seven kinds with a payload of that kind, or an unnumbered delete of one of the five kinds with tombstones, with a deletion time and no payload |
| PushProofs.TransactionKeepsSafe | server/internal/sync/push_change_store.go:32-63 | commit or rollback keeps USNs distinct and below the stored cursor; a commit moves the cursor to the end of its range, and the cursor never goes back |
| Scans.ScanSound | server/internal/sync/sql/scripts/pull_notes.sql:3-16 | a scan holds only rows of its kind with a USN in the range, in strictly ascending order |
| Scans.ScanComplete | server/internal/sync/sql/scripts/pull_notes.sql:3-16 | and every such row |
| Scans.ScanCut | server/internal/sync/collector/note.go:105 | the cursor 'USN of row j plus one' cuts a scan exactly after row j |
| PullBatches.FitStopsWhenFull | server/internal/sync/collector/note.go:44-48 | the collector stops right after the row that fills it and not before |
| PullBatches.PagingIsInvisible | server/internal/sync/pull_change_store.go:177-194 | going on from the cursor behind a page, with room left, yields exactly what one unpaged scan yields |
| PullBatches.BatchIsBudgetPrefix | server/internal/sync/pull_change_store.go:63-117 | queue, row limits and byte budget together deliver exactly the shortest prefix of the unread stream that fills the collector, or all of it |
| PullBatches.BatchConserves | server/internal/sync/pull_change_store.go:96-114 | the unread stream before a call is what it delivers followed by the stream of the queue and cursor it returns: no row lost or duplicated as long as later types are read from the reset cursor |
| PullBatches.BatchSplits | server/internal/sync/pull_change_store.go:96-114 | the finished types are a prefix of the queue, each delivered whole from its start; the type stopped inside is delivered up to the returned cursor |
| PullBatches.BatchOvershootsByOneRow | server/internal/sync/collector/collector.go:47-49 | without its last row a batch is below 65536 bytes, and a batch that leaves rows unread has reached 65536 |
| PullBatches.BatchFailsIff | server/internal/sync/pull_change_store.go:83-94 | a call fails iff some type that the budget lets it reach is unknown or has no row left (from a non-negative start) |
| PullBatches.BatchErrorIs | server/internal/sync/pull_change_store.go:83-94 | which error it is: that of the first queued type that is unknown or has no row left |
| PullBatches.EndCursor | server/internal/sync/pull_change_store.go:110-117 | a call that finishes the queue ends with the upper bound as cursor if there was room left, else with the reset cursor |
| PullBatches.NoSpuriousFailure | server/internal/sync/pull_change_store.go:90-94 | a call never fails while every queued type has a row in the range it is read from |
| Collectors.MaxUsn | server/internal/sync/collector/collector.go:39-45 | the largest collected USN, 0 if there is none |
| Collectors.PullCollector.AddRow | server/internal/sync/collector/note.go:69-107 | one row adds its change, its size and its USN to the collector |
| Collectors.PullCollector.AddChanges | server/internal/sync/collector/note.go:31-116 | the row loop takes as many rows as limit and budget allow, keeps changes, byte count and maximum USN those of the collected rows, and reports cursor, HasMore and SizeExceeded |
| Collectors.PullCollector.AddCollectionChanges | server/internal/sync/collector/collection.go:29-89 | the same loop without the check of the row limit |
| Collectors.FlagsAreExact | server/internal/sync/collector/note.go:38-115 | on a page of limit+1 rows HasMore holds iff a row is left behind the new cursor, SizeExceeded implies the budget alone decided, and a non-empty range yields at least one row |
| Collectors.AtMostOneCollection | server/internal/sync/sql/scripts/pull_collection.sql:3-17 | a scan of the collections has at most one row, which is why its loop needs no limit |
| Collectors.BatchBelowUpper | server/internal/sync/pull.go:57-76 | every delivered USN, and the reported maximum, is below the upper bound of the pull |
| RowFormats.SizesAreColumns | server/internal/sync/collector/card.go:9-26 | the bytes counted for a row of each kind, or for a tombstone, are the widths of its columns plus the length of its strings |
| RowFormats.CardsPerBatch | server/internal/sync/collector/card.go:50-137 | with more than 542 live cards to read a pull delivers exactly the first 542 |
| RowFormats.ReviewLogsPerBatch | server/internal/sync/collector/review_log.go:37-106 | with more than 781 review logs the first 781 |
| RowFormats.TombstonesPerBatch | server/internal/sync/collector/note.go:68-80 | with more than 1986 tombstones of any kind the first 1986 |
| RowFormats.LiveRowReturns | server/internal/sync/collector/note.go:81-104 | the change delivered for a live row, sent back unnumbered, is accepted and recreates the row |
| RowFormats.TombstoneReturns | server/internal/sync/collector/note.go:70-80 | the change delivered for a tombstone is a delete without payload; sent back it turns the live row into just that tombstone, its content kept |
| PullChangeStores.PullChangeStore.PullPage | server/internal/sync/pull_change_store.go:120-251 | one page query and its collection: what is taken, the cursor and both flags, in terms of the whole unread range |
| PullChangeStores.PullChangeStore.GetChangesSinceUSN | server/internal/sync/pull_change_store.go:57-118 | the loop over queue and pages, with its shared collector, computes the unpaged type-by-type batch, errors included, and terminates |
| QueueCodec.AtoiOfItoa | server/internal/sync/pull.go:122 | reading back a written number gives the number, for all 64-bit values |
| QueueCodec.AtoiIsBounded | server/internal/sync/pull.go:122 | and a number that does not fit in 64 bits is not read |
| QueueCodec.QueueRoundTrip | server/internal/sync/pull.go:107-143 | parsing a stored queue gives back the queue, for every sequence of int8 values, empty and negative included |
| QueueCodec.QueueStringsAreDistinct | server/internal/sync/pull.go:132-143 | two different queues are never stored as the same string |
| QueueCodec.StoredQueues | server/internal/sync/pull.go:132-143 | concrete queues and what is stored for them, character by character |
| QueueCodec.ForeignNumbers | server/internal/sync/pull.go:120-127 | concrete strings that are and are not read as numbers |
| QueueCodec.ForeignQueues | server/internal/sync/pull.go:107-130 | a number out of range is cut to eight bits, and an empty part spoils the queue |
| QueueCodec.TypeQueueToString | server/internal/sync/pull.go:132-143 | the loop writes the joined decimal numbers, and what it writes parses back to its input |
| QueueCodec.ParseEntityQueue | server/internal/sync/pull.go:107-130 | the loop accepts exactly comma-separated numbers, truncates them to int8, and fails on anything else |
| PullQueues.PullQueue | server/internal/sync/sql/scripts/select_pull_entity_types.sql:6-18 | exactly the kinds with a sync unit in the range, strictly ascending |
| PullQueues.QueuedIffRows | server/internal/sync/handshake_store.go:84-113 | where the index agrees with the tables a kind is queued iff its table has a row in the range |
| PullQueues.HandshakeQueueIsUnread | server/internal/sync/handshake.go:143-148 | so every type of a handshake queue has a row for the first pull to read |
| PullSessions.PullProgresses | server/internal/sync/pull_change_store.go:96-114 | every successful pull but the last finishes a type or moves the cursor forward inside one; the queue only loses its front |
| PullSessions.CursorsStayInRange | server/internal/sync/pull.go:66-76 | the saved cursor stays between the two handshake cursors, and the saved queue is a suffix of the handshake queue |
| PullSessions.SessionsAreFinite | server/internal/sync/pull.go:54-76 | a session has at most (queued types + USNs in its range) successful pulls |
| PullSessions.DeliveredExactly | server/internal/sync/pull.go:38-76 | over a session each type is delivered once, in order, as exactly its rows from the StartUSN of the pull in which it became head up to the server's handshake cursor |
| PullCompleteness.NothingElseIsLost | server/internal/sync/pull_change_store.go:57-118 | every row of the handshake range is delivered, still to come, or was skipped at a stop: the counts add up exactly |
| PullCompleteness.CompleteIffNothingSkipped | server/internal/sync/pull_change_store.go:96-112 | a finished session has delivered all rows since the client's cursor, in order, iff no stop inside a type left behind a row of a type queued behind it |
| PullCuts.StopsBehindLastRow | server/internal/sync/pull_change_store.go:96-112 | a successful call stops at the end of a type, or right behind the last row it delivers with rows of that type still to come |
| PullCuts.SessionCuts | server/internal/sync/pull_change_store.go:57-118 | the greedy byte-budget cuts of the unread rows are clean iff nothing was skipped so far and the cuts still ahead are clean |
| PullCuts.CompleteIffCleanCuts | server/internal/sync/pull_change_store.go:57-118 | a finished session is complete iff no byte-budget cut of the unread rows splits a type while an older row of another type is still to come: a condition on the rows before the first pull |
| PullCompleteness.OnlyInnerStopsSkip | server/internal/sync/pull_change_store.go:96-103 | only a stop inside a type with others still queued can skip a row |
| PullCompleteness.BasesStay | server/internal/sync/session/sync_session.go:29-34 | without such stops every type is read from the client's handshake cursor |
| PullCompleteness.StopLeavesRows | server/internal/sync/pull_change_store.go:97-99 | the cursor saved inside a type always has a row of that type behind it |
| PullCompleteness.NoSkipNoFailure | server/internal/sync/pull_change_store.go:83-94 | a session that has skipped nothing never runs into an error |
| PullCompleteness.UnstarvedSucceeds | server/internal/sync/pull_change_store.go:83-94 | the next pull succeeds while every queued type has a row ahead of the cursor |
| PullCompleteness.StarvedNeverFinishes | server/internal/sync/pull_change_store.go:90-94 | once a queued type has lost all its rows to a stop, no sequence of further pulls empties the queue |
| PullEnds.SessionIsDetermined | server/internal/sync/pull.go:38-76 | of two sessions from the same start, the shorter is the beginning of the longer |
| PullEnds.EndsCompleteIffCleanCuts | server/internal/sync/pull.go:38-76 | a session comes to an end with every unread row delivered iff the cuts of the unread rows are clean |
| PullSurvival.NewerOfStream | server/internal/sync/pull_change_store.go:96-112 | dropping the rows below a saved cursor from the unread rows leaves what the next pull reads from that cursor |
| PullSurvival.SurvivesOnward | server/internal/sync/pull_change_store.go:96-112 | whatever the stop, the unread rows survive the cuts iff every type still queued has a row ahead of the saved cursor and the rows the next pull finds survive |
| PullSurvival.FinishesIffSurvives | server/internal/sync/pull_change_store.go:83-112 | a session can be brought to its end iff its unread rows survive the cuts: no cut inside a type takes from another type still to come all of its rows. A condition on the rows before the first pull |
| PullEnds.FinishesIffNeverStarved | server/internal/sync/pull_change_store.go:83-94 | the step in between: at any stage a session can be continued to its end iff none of its continuations leaves a queued type without a row ahead |
| PullCompleteness.VariantConserves | server/internal/sync/session/sync_session.go:31-33 | VARIANT, the comment instead of the code: resetting to the client's handshake cursor, a session loses and duplicates nothing |
| PullCompleteness.VariantNeverFails | server/internal/sync/session/sync_session.go:31-33 | VARIANT: and none of its pulls fails |
| PullEnds.VariantFinishes | server/internal/sync/session/sync_session.go:31-33 | VARIANT: and every session can be continued to its end |
| Replicas.AbsorbGenuine | server/internal/sync/pull.go:57-76 | applying delivered rows sets exactly their keys, to what the server holds |
| Replicas.StreamComplete | server/internal/sync/sql/scripts/pull_notes.sql:3-16 | every row of a queued kind in the range is in the stream |
| Replicas.StreamNoDuplicates | server/internal/sync/sql/scripts/select_pull_entity_types.sql:6-18 | and no row is in it twice |
| Replicas.SessionConverges | server/internal/sync/pull.go:38-76 | a client up to date below its cursor that applies a finished session in which nothing was skipped equals the server, tombstones included |
| Replicas.ConvergesIffNothingSkipped | server/internal/sync/pull.go:38-76 | for an up-to-date client that knows nothing newer than its cursor: it converges iff nothing was skipped |
| Replicas.ConvergesIffCleanCuts | server/internal/sync/pull.go:38-76 | and iff the cuts of its unread rows are clean, which the rows and its cursor tell before the session |
| Replicas.BatchKeepsUpToDate | server/internal/sync/push_change_store.go:42-52 | a batch numbered from a client's cursor on leaves that client up to date below the cursor, if no foreign collection is pushed |
| OwnPushes.RecordedIsViewIff | server/internal/sync/push_change_store.go:65-72 | a client that knew the server's rows and records its own batch under the USNs of the reply knows them again iff the last change to every entity takes effect |
| OwnPushes.OwnBatchIff | server/internal/sync/sql/scripts/delete_note.sql:2-9 | for a committed batch: it is up to date below the new stored cursor under just that condition; a delete that marks no row uses up a USN and leaves the client with a tombstone the server has not |
| Replicas.VariantConverges | server/internal/sync/session/sync_session.go:31-33 | VARIANT: with the documented reset every finished session converges |
| SyncHandlers.SyncHandler.GetPullEntityQueueForHandshake | server/internal/sync/handshake_store.go:84-113 | the queried kinds as the stored queue string |
| SyncHandlers.SyncHandler.Handshake | server/internal/sync/handshake.go:39-174 | every outcome of the handshake: refusal by clock or collection id, nothing to do, the session of each cursor comparison, or locked |
| SyncHandlers.SyncHandler.Pull | server/internal/sync/pull.go:15-77 | claim, collect, then save the progress or finish the pull; any failure after the claim uses up the number and nothing else |
| SyncHandlers.SyncHandler.Push | server/internal/sync/push.go:12-63 | finish_push, or claim and then the transaction; a failed transaction leaves the claim in place |
| SyncHandlers.SyncHandler.FinishSync | server/internal/sync/session/finish.go:29-67 | check, set the sync time, release; a refused check or a failed update changes nothing, a failed release leaves the session with the new time |
| Protocol.StoredQueueReadsBack | server/internal/sync/pull.go:30-32 | in every pulling state the stored queue parses, to a suffix of the handshake queue |
| Protocol.StepKeepsInv | server/internal/sync/session/sync_session.go:34-46 | every allowed step keeps the invariant that ties session, database, pending batch and history together |
| ProtocolRuns.RunKeepsInv | server/internal/sync/session/sync_session.go:34-46 | so does every run, over any number of sessions |
| ProtocolRuns.ReachableIsSafe | server/internal/sync/push_change_store.go:43-55 | in every reachable state rows and tombstones have distinct USNs below the stored cursor, and the committed ranges increase in commit order |
| ProtocolRuns.IncreasingAreDisjoint | server/internal/sync/session/scripts/claim_push_batch.lua:46-48 | any two committed ranges of a run are disjoint and ordered, rolled-back claims in between or not |
| ProtocolRuns.RunRaisesCursor | server/internal/sync/sql/scripts/update_collection_sync_cursor.sql:2-4 | the stored cursor never decreases over any run, although it is written unconditionally |
| ProtocolRuns.StaleRequestsAreInvisible | server/internal/sync/session/scripts/release_sync_session.lua:10-19 | after its session is gone, all requests of an old client can be dropped from a run without changing where it ends, later sessions included |
| ProtocolRuns.SessionsMoveForward | server/internal/sync/session/scripts/mark_push_finished.lua:22-41 | a session only moves forward through its phases, and accepted batches are never given up; an upload-all session never changes |
| ProtocolRuns.AcceptedBatches | server/internal/sync/session/scripts/claim_push_batch.lua:25-51 | accepted numbers are exactly 1, 2, 3, ..., the reserved ranges are adjacent from the handshake cursor to the session cursor, and none exists before the pull is finished |
| ProtocolRuns.AcceptedIffNext | server/internal/sync/session/scripts/claim_pull_batch.lua:33-52 | in every state exactly the next number of the current phase is accepted, for pull, push and finish_push |
| Answers.HandshakeAnswers | server/internal/sync/handshake.go:69-174 | the whole answer of a handshake and the lock it leaves, from clock, collection, cursors and lock: which status when, which session with which cursor and queue, and when none |
| Answers.UploadSessionAcceptsNothing | server/internal/sync/handshake.go:151-155 | while a session waits for the upload of everything, every pull, push and finish of anybody is refused and changes nothing |
| Answers.AfterFinish | server/internal/sync/session/finish.go:51-53 | after a finish the next client that wants a session gets one, and is told the time stored |
| Answers.PullAnswers | server/internal/sync/pull.go:15-77 | a pull is refused unless it is the next one of the pulling session; a reply carries the number asked for, the largest USN of its changes or 0, and says it is the last iff the session has left PULLING |
| Answers.PullRefusals | server/internal/sync/session/scripts/claim_pull_batch.lua:33-47 | why a pull is refused: a session in any other state counts as missing, and a wrong state is never reported |
| Answers.PushRefusals | server/internal/sync/session/scripts/claim_push_batch.lua:25-43 | why a push claim is refused, in every state |
| Answers.EmptyClaimReservesNothing | server/internal/sync/session/scripts/claim_push_batch.lua:25-27 | a claim of no USNs is refused and reserves nothing |
| Answers.PushAnswers | server/internal/sync/push.go:41-63 | a claimed batch is committed and every change announced with its USN, or the database is as before and the reason given |
| Answers.FinishPushAnswers | server/internal/sync/session/scripts/mark_push_finished.lua:22-41 | finish_push is accepted iff the session is pushing and the number is the next; it leads to AWAITING_FINISH and changes nothing else; a refusal says why |
| Answers.AfterFinishPush | server/internal/sync/session/scripts/mark_push_finished.lua:38-41 | after it every push and further finish_push is refused, and FinishSync succeeds |
| Answers.FinishAnswers | server/internal/sync/session/finish.go:29-67 | FinishSync frees the lock iff it is the session's own, in a finishing state, and nothing fails; it then has stored the time and nothing else; a refusal says why |
| Answers.LateScriptsChangeNothing | server/internal/sync/session/scripts/update_pull_progress.lua:15-21 | a script with the id of a session that is gone leaves the lock as it is |
| Answers.OneSessionIsCreated | server/internal/sync/session/scripts/create_session.lua:21-42 | a session is stored iff there is none, with its queue iff it is pulling |
| Answers.PulledSessionPushesAndFinishes | server/internal/sync/push.go:12-63 | a pulled session can push any acceptable batch, finish it and free the lock by four allowed events; batch and time are stored |
| Answers.LockIsFreedIff | server/internal/sync/session/finish.go:29-67 | some run without expiry frees the lock of a pulling session iff what was unread at its handshake survives the cuts |
| ProtocolRuns.RunsRespectLock | server/internal/sync/session/scripts/create_session.lua:21-42 | no run of handshakes, requests and failures takes the lock from a session that neither expires nor finishes |
| ProtocolRuns.CursorsRelate | server/internal/sync/session/scripts/mark_pull_finished.lua:16-34 | how client, session, server and stored cursors and the pending range are ordered in each phase |
| ProtocolHistory.LastWriterOfRunWins | server/internal/sync/push_change_store.go:32-63 | in every reachable state every key holds the content and USN of its last effective change in all batches committed so far |
| ProtocolHistory.ReachableIndexIff | server/internal/sync/push_change_store.go:339-388 | in every reachable state the index agrees with the tables iff the committed history is unambiguous |
| ProtocolHistory.RunKeepsIndexIff | server/internal/sync/push_change_store.go:339-388 | the index agrees in every state of a run iff every batch the run commits is unambiguous on the tables it meets |
| ProtocolHistory.TypedRunKeepsIndex | server/internal/sync/push_change_store.go:339-388 | it does in every run in which clients give each id one kind and push only one collection id |
| ProtocolHistory.RunKeepsUpToDate | server/internal/sync/handshake.go:122-148 | a client that is up to date below its cursor stays so over every run without foreign collections |
| ProtocolHistory.ViewKnowsHistory | server/internal/sync/push_change_store.go:65-72 | in every reachable state rows and tombstones are what the history leaves: payload or deletion time as sent, USN as announced in the reply, nothing else |
| ProtocolHistory.ClientCatchesUpIff | server/internal/sync/pull.go:54-64 | a client up to date in any reachable state, after any run, that applies the changes in the replies of a finished session from its cursor: it equals the server iff the cuts of its unread rows were clean, and then knows the last effective push of every entity and is up to date for its next session |
| ProtocolHistory.OwnPushCatchesUpIff | server/internal/sync/push.go:36-63 | the same chain over the client's own pushes: after its commit the client is as ready for its next session as after a clean pull, iff the last change to every entity took effect |
| ProtocolPulls.UnskippedPullSucceeds | server/internal/sync/pull.go:24-53 | in every state with an agreeing index in which nothing was skipped, the session's next pull succeeds: in particular every first pull |
| ProtocolPulls.PulledClientConverges | server/internal/sync/pull.go:54-64 | in every state after a finished pull, an up-to-date client that applied the changes in the replies equals the server if nothing was skipped |
| ProtocolPulls.BoundaryStopsConverge | server/internal/sync/pull_change_store.go:96-112 | in particular if every stop was at the end of a type or inside the last queued one |
| ProtocolPulls.PulledClientConvergesIff | server/internal/sync/pull.go:54-64 | and for a client that knows nothing newer than its cursor, iff the cuts of its unread rows were clean |
| ProtocolPulls.CleanSessionSucceeds | server/internal/sync/pull.go:24-53 | while the cuts of the unread rows are clean nothing is skipped and every pull succeeds |
| ProtocolPulls.CleanSessionFinishes | server/internal/sync/pull.go:54-76 | and the session's own pulls lead it to AWAITING_PUSH_OR_FINISH |
| ProtocolPulls.SessionFinishesIff | server/internal/sync/pull.go:54-76 | in every state of PULLING: some run, and then one of the session's own pulls alone, leads the session out of PULLING iff what was unread at the handshake survives the cuts |
| ProtocolPulls.DoomedSessionOnlyExpires | server/internal/sync/pull.go:47-50 | otherwise it is doomed from its handshake on: no run without expiry leads it out of PULLING, and it keeps the lock |
| ProtocolPulls.PullsAreFinite | server/internal/sync/pull.go:66-76 | the bound on successful pulls, in every reachable state |
| ProtocolPulls.StarvedSessionOnlyExpires | server/internal/sync/pull.go:47-50 | a session in which a queued type lost all its rows stays in PULLING over every run without expiry, and keeps the lock |
| Counterexamples.FinishedSessionCanLoseARow | server/internal/sync/pull_change_store.go:96-112 | a concrete push and session that finishes without ever delivering one of the rows |
| Counterexamples.SessionCanGetStuck | server/internal/sync/pull_change_store.go:90-94 | a concrete session whose second pull fails with 'invalid SyncCursorUsn' although the database is sound |
| Counterexamples.ForeignCollectionBreaksIndex | server/internal/sync/sql/scripts/upsert_collection.sql:16-17 | an accepted push of another collection id leaves sync_units with an entry that has no row |
| Counterexamples.ReusedIdKeepsIndex | server/internal/sync/sql/scripts/upsert_collection.sql:16-17 | a batch whose single changes clash can still leave the index right |
| Counterexamples.LateCommitBreaksUsns | server/internal/sync/sql/scripts/update_collection_sync_cursor.sql:2-4 | if a transaction outlived its session, two committed rows could share a USN |
| StuckRun.StuckSessionIsReachable | server/internal/sync/pull_change_store.go:90-94 | the stuck session is reached by an allowed run of six events, for a new client |
| StuckRun.LossIsReachable | server/internal/sync/pull_change_store.go:96-112 | and one event more, with another batch, reaches a finished pull of a new client that lacks a row of the server |

## Left out

- RowsAt: in a table where two rows of one kind shared a USN a query would return both and this function one; `ProtocolRuns.ReachableIsSafe` shows that no reachable table is like that, and the lemmas that need it require distinct USNs.
- AddChanges: one loop stands for the six row-limited collectors (`card.go`, `deck.go`, `note.go`, `note_type.go`, `processing_note.go`, `review_log.go`), which differ only in the sizes and columns of a row; each kind's own row limit and byte sizes are kept. By `PullBatches.PagingIsInvisible` no answer depends on the value of a limit.
- Handshake: integers are unbounded here, so the overflow of a clock difference is not modelled.
- Other users: every key and every query is per user, so one user is modelled; isolation between users is a matter of the keys.
- Time to live: the 60-second expiry and its renewals are one event that may happen at any moment the assumptions allow.
- Sixty-four-bit and Lua numbers: USNs and batch numbers are unbounded integers, which agrees with the program while they stay below 2^53.
- CommitsIff: a statement that MySQL itself rejects (a name longer than VARCHAR(32), invalid text for a JSON column) rolls the transaction back too; in the state machine such a failure is `PushResolved(true)`, but the lemma does not predict it.
- JSON columns: MySQL normalises the text of JSON columns (config, fields, note_template), so what comes back is the payload as sent up to that normalisation.
- Payload columns: a payload is its total string length, its update time and one opaque value; ids are numbers that are only compared.
- UploadAll and CancelSync: not implemented in the repository; their session state is kept, and nothing but expiry leaves it.
- The client: the program on the device is not modelled; a client is the map that results from applying pulled changes in order.
- Lost answers: a script or commit that took effect although its call reported an error is modelled as having succeeded; what the client does without the answer is not modelled.
- Device ids, device names and protocol versions: stored or logged, never read by the engine.
- OAuth, registration, login, validation, logging, start-up, the web client, and the mapping of results to connect errors: plumbing that would only add easy members.
