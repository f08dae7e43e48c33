# Verification model of the dspatch engine's sync and notification core

The dspatch engine keeps the same SQLite tables on several devices of one user. Every device stamps
its changes with a Lamport clock, keeps them in an outbox, sends each peer what lies above that
peer's cursor, applies what it receives by last-writer-wins with tombstones, and compacts and prunes
the outbox as it goes. Around this core the engine notifies its clients of changed tables through
bounded channels that may drop messages. This project models that behaviour in Dafny and proves what
it guarantees over every run.

`dafny verify dfyconfig.toml` checks the whole project.

## How the model is laid out

| Layer | Modules |
|---|---|
| Values and stamps | `SyncTypes`, `Materializer` (last-writer-wins and tombstones on one store), `OutboxHook` (SQL statements with their triggers), `Receipt` (remote changes as statements that fire those triggers) |
| One device | `EngineSpec` (each engine operation as a function or relation), `LocalDatabase` and `Engine` (the classes that change the state in place, proved against those functions), `StateTransfer` (delta and snapshot) |
| Any number of devices | `Network` (one step is one engine call, one delivery, one start or one cut), `ClockCondition`, `Convergence`, `NoLostUpdate`, `Restarts`, `EndToEnd`, `Acknowledgements`, `TransferSteps` (deltas and snapshots as stretches of a run), `LostUpdates` (runs and receipts that lose an update) |
| Change notification | `Broadcast`, `QuietRuns`, `Invalidation`, `WatchQuery` |
| Smaller algorithms | `KeyManager`, `DirectoryNames`, `Transcript`, `Heartbeat`, `DecryptFailures`, `Decimal` |

A run of `Network` is any interleaving of local writes, compaction, flushes of which the transport
accepts a prefix, reconciliation, cursor exchanges, deliveries, relays through other devices, late and
repeated acknowledgements, pruning, starts, gate switches and cut links, on a full mesh of devices. Local
writes are recorded either by the triggers or through `record_change`, one of the two throughout a run.
A start is the program's own: gate set, clock bootstrapped, new engine (`BootEv`). A new engine on the
persisted clock alone, which `SyncEngine::new` documents and the program never uses, is `RestartEv`.

Receipts are modelled as the program performs them: the materializer's statement fires the triggers of its
table whenever the gate is on, and starting sync turns the gate on and never off. What each group of
theorems supposes of receipts is therefore part of its statement:

- The clock condition holds for receipts that are captured again, their echoes counted as changes.
- Strong convergence holds for them too, the echoes counted as the replica's own writes, as long as changes
  to one row have distinct stamps. Two devices that capture one change often break that: with clocks no later
  than the change their echoes always tie (`Convergence.EchoesTieIff`, `Convergence.TiedEchoesLeaveRegime`).
- No lost update and the end-to-end theorem are about one table with a single writer, and suppose that no
  other device captures a received change of that table; other tables, and receipts at the writer, are free.
  A delivery keeps the protocol invariant exactly then (`NoLostUpdate.DeliveryKeepsInvIff`), and so does a
  delta or a snapshot (`TransferSteps.TransferKeepsInvIff`). `Receipt.EchoesAtReceiptIff` says when a receipt
  captures nothing at all, and `LostUpdates.EchoLosesUpdate` shows an update lost through an echo.

## What the model found

Where the code and its documentation or intent disagree the model follows the code. Each point but the last
is a lemma with a concrete input or an exact condition.

- **Echoes.** A change received by a started device is captured again as that device's own, newer change
  (`LostUpdates.DeliveryIsEchoed`, exact condition `Receipt.EchoesAtReceiptIff`). Two started devices that
  have a row never finish exchanging one change of it (`Receipt.EchoNeverEnds`).
- **One cursor table, two meanings.** A change received from a peer moves the same cursor as its
  acknowledgements. In a table that the peer writes too, as every account table is, an unsent own entry is
  then taken for delivered and pruned (`LostUpdates.ReceiptLosesUpdate`; exact condition
  `LostUpdates.BatchKeepsPendingIff`). Through echoes this reaches tables that one device writes
  (`LostUpdates.EchoLosesUpdate`).
- **Starts.** Starting sync bootstraps the clock from the outbox, which overwrites what `persist_lamport`
  stored (`ClockCondition.BootstrapKeepsClockIff`). After full delivery and pruning a stamp is reused
  (`ClockCondition.BootstrapReusesStamp`), and the next update is lost (`LostUpdates.BootLosesUpdate`). The
  next update is pending for every peer exactly when the outbox maximum reaches the writer's cursors
  (`Restarts.NextUpdateSafeIff`). As long as no late acknowledgement lowers a cursor, that condition also
  keeps all later updates (`Restarts.NoUpdateLostAcrossStarts`) and is the exact one for the invariant behind
  them (`Restarts.BootKeepsInvIffCursors`). With one it is not enough: the next update, pending at first, is
  lost by a second late acknowledgement (`LostUpdates.LateAckLosesUpdate`). An outbox maximum that reaches the
  table's last stamps is enough in every run, and exact for the invariant (`NoLostUpdate.BootKeepsInvIff`).
- **Ties.** The module documentation says that the greater device id wins a timestamp tie. The engine
  compares its own id, not the stored entry's (`sync_engine.rs` 422-425), so a tie is settled as documented
  exactly under `Convergence.TieSettledAsDocumentedIff`, and a third device can end with either row
  (`Convergence.TiesDivergeAtThirdDevice`). The materializer alone does keep the promise
  (`Materializer.MaterializeIsJoin`).
- **Remote deletes.** A delete received from a peer leaves a covering tombstone only if the gate is on and it
  finds its row (`Receipt.RemoteDeleteLeavesTombstoneIff`). In the other cases an older row comes back
  (`Receipt.OlderRowComesBackIff`, `Receipt.RemoteDeleteDoesNotPreventResurrection`).
- **Preferences.** Deletes name a column that `preferences` does not have and never take effect there
  (`Materializer.DeleteTakesEffectIff`, `Receipt.ReceivedDeleteTakesEffectIff`).
- **Delta cursor.** Peers ask for a delta above their own largest stamp. That leaves out rows they never
  had as soon as they own a newer one (`StateTransfer.OwnMaximumLeavesGap`); `StateTransfer.DeltaClosesGapIff`
  is the exact condition.
- **Delta stamps.** Rows taken from a delta do not merge the clock. With the gate on they are stamped by the
  receiver's own clock, possibly behind the stamp they came with (`StateTransfer.TakenRowAsNewIff`), and an
  edit made afterwards may not reach the sender (`StateTransfer.EditAfterDeltaReachesIff`). With the gate off
  the receiver takes the sender's id for the row's own, so a tie can lower a stored stamp
  (`StateTransfer.DeltaLowersStampIff`).
- **Snapshots.** Snapshot rows are commented as accepted unconditionally; `StateTransfer.SnapshotRowAcceptedIff`
  says when they are.
- **Inserts.** The insert trigger's stamping update fires the update trigger, so an insert leaves two
  outbox entries, and neither payload carries the stamp the row ends with
  (`OutboxHook.InsertLeavesTwoEntries`).
- **One acknowledgement, one table.** A batch is acknowledged by its last change, and `handle_ack` moves the
  cursor of that change's table only. Entries of other tables in the batch stay pending for the peer, are sent
  again with every flush and are not pruned (`Acknowledgements.OtherTablesStayPending`;
  `EngineSpec.AckSettlesIff` is the exact condition).
- **Locking in `handle_ack`.** For a known entry `handle_ack` still holds the connection's lock when `update_cursor`
  takes it again (`sync_engine.rs` 490 and 502, `db/mod.rs` 114-123). The lock is not reentrant, so as written
  the call does not return; the model has what it is meant to do.

## Model

| member | source | states |
|---|---|---|
| NoLostUpdate.NoUpdateLost | packages/dspatch_engine/src/sync/sync_engine.rs:319-389 | in every state of every run, for a single-writer table whose changes no other device captures again, and for every peer, each row's last change is itself recorded at the peer or is still in the writer's outbox above the cursor for that peer; starts of the writer are those whose outbox maximum reaches the table's last stamps |
| NoLostUpdate.PruneDropsOnlyDelivered | packages/dspatch_engine/src/sync/sync_engine.rs:563-609 | in such runs an entry that pruning removes and that is its row's last change is in the outbox of every other device |
| EndToEnd.ShownOrPending | packages/dspatch_engine/src/sync/sync_loop.rs:133-158 | in every state of every such run with full-record payloads, for every peer that started without rows of the table and every row of it, the peer's table shows exactly what the row's last change makes of it, or the change is in the writer's outbox above the cursor |
| EndToEnd.CaughtUpShows | packages/dspatch_engine/src/sync/sync_engine.rs:344-389 | after a complete flush and as many deliveries as were on the link, the peer's table shows every row not changed since as its last change leaves it |
| Restarts.NoUpdateLostAcrossStarts | packages/dspatch_engine/src/sync/sync_engine.rs:344-389 | in whole runs whose starts meet that condition each row's last change is recorded at the peer or pending for it |
| ClockCondition.HappensBeforeIncreases | packages/dspatch_engine/src/sync/sync_engine.rs:108-131 | if one change happens before another, by program order, the order within one receipt, receipt and capture of a receipt, transitively and across starts that keep the clock, its timestamp is strictly smaller |
| Convergence.StrongConvergence | packages/dspatch_engine/src/sync/sync_engine.rs:400-464 | replicas that started alike and have seen the same changes, deletes and echoes included, in any order, batching and duplication, with local writes, compaction and gate switches in between, show the same rows |
| Convergence.RowIsHighestChange | packages/dspatch_engine/src/sync/sync_engine.rs:391-397 | every row shown is the effect of its highest-stamped change, the replica's own echoes included |
| Convergence.ConvergenceUpToSuperseded | packages/dspatch_engine/src/sync/sync_engine.rs:349-352 | replicas agree even if one has missed changes that a newer change to the same row supersedes, as compaction at the sender makes them |
| Invalidation.NoInvalidationLost | packages/dspatch_engine/src/client_api/invalidation.rs:135-210 | in every reachable state a table notified and not yet reported to a client is pending in its channel, in the batch being gathered, in a batch the client can still receive, or covered by a lag that makes its next frame name every table |
| Invalidation.MaximalRunIsFresh | packages/dspatch_engine/src/client_api/ws.rs:110-137 | every maximal run without further notifications, whatever its schedule, leaves every client told of every notified table |
| WatchQuery.NeverRestsStale | packages/dspatch_engine/src/db/reactive.rs:128-206 | whenever the stream waits, its last result is the query on the current database or some receiver has a notification or lag pending |
| WatchQuery.MaximalRunIsFresh | packages/dspatch_engine/src/db/reactive.rs:163-206 | every maximal run without further writes leaves the stream at rest on a result of the current database |
| KeyManager.CreatedOnceSeenByAll | packages/dspatch_engine/src/db/key_manager.rs:67-92 | in every interleaving of any number of callers a key is written at most once, never if it existed, and all calls that return return the same value |
| NoLostUpdate.StepKeepsInv | packages/dspatch_engine/src/sync/sync_loop.rs:131-189 | every step of such a run keeps the protocol invariant: cursors, acknowledgements, outboxes and messages in flight never claim more than the receiver holds or will hold after the messages before it |
| NoLostUpdate.DeliveryKeepsInvIff | packages/dspatch_engine/src/sync/sync_engine.rs:400-481 | a delivery keeps that invariant if and only if the receiver is the writer or its triggers capture no change of the table; other tables are free |
| TransferSteps.TransferKeepsInvIff | packages/dspatch_engine/src/sync/sync_loop.rs:256-384 | taking a delta or a snapshot chunk is a stretch of a network run, its captured rows recorded one after the other; it keeps the protocol invariant of a single-writer table if and only if the receiver is the writer or its triggers capture no row of the table |
| NoLostUpdate.BootKeepsInvIff | packages/dspatch_engine/src/sdk.rs:883-894 | a start of the writer keeps that invariant if and only if the outbox maximum reaches the last stamp of every row of the table |
| Restarts.BootKeepsInvIffCursors | packages/dspatch_engine/src/sdk.rs:883-894 | in runs where no acknowledgement lowers a cursor, a start keeps the protocol invariant if and only if the outbox maximum is at or above every cursor for the table |
| Restarts.NextUpdateSafeIff | packages/dspatch_engine/src/sdk.rs:883-894 | after a start the writer's next update, of any row, is pending for every peer if and only if the outbox maximum was at or above its cursor for every peer |
| LostUpdates.BootLosesUpdate | packages/dspatch_engine/src/sdk.rs:883-894 | a whole run, with one writer and quiet receipts, in which a start repeats a stamp and the next update, of whatever row, is neither sent nor recorded by the peer and is pruned |
| LostUpdates.LateAckLosesUpdate | packages/dspatch_engine/src/sync/sync_engine.rs:489-506 | a whole run with one writer and quiet receipts in which, although the outbox maximum is at the cursor when the sync engine starts, a repeated acknowledgement makes the next update, of whatever row, look delivered, and it is pruned unsent |
| NoLostUpdate.CatchUp | packages/dspatch_engine/src/sync/sync_loop.rs:133-158 | after a complete flush, whatever else happens in such a run short of cutting the link, once as many messages have been delivered as were on the link the peer records what was every row's last change at the flush, or something newer |
| NoLostUpdate.FlushReachesPeer | packages/dspatch_engine/src/sync/sync_engine.rs:344-389 | after a flush whose chunks were all accepted every row's last change is at the peer or on the link to it |
| Acknowledgements.AcknowledgedIsPruned | packages/dspatch_engine/src/sync/sync_engine.rs:563-609 | in every run, once every known device has acknowledged an own entry, or a later one of its table, and nothing has lowered those cursors since, the next pruning removes it |
| Acknowledgements.FlushIsAcknowledged | packages/dspatch_engine/src/sync/sync_loop.rs:133-158 | after a complete flush, whatever else happens short of cutting the link, once as many messages have been delivered as were on it the peer has acknowledged the flush's last change |
| Acknowledgements.FlushIsSettled | packages/dspatch_engine/src/sync/sync_engine.rs:489-506 | once an acknowledgement of a known entry, of whatever origin, has been handled, nothing of its table up to its timestamp is pending for the peer |
| Acknowledgements.OtherTablesStayPending | packages/dspatch_engine/src/sync/sync_loop.rs:135-151 | a batch is acknowledged by its last change alone: everything of other tables that was pending stays pending, and is not pruned |
| EngineSpec.PrunedIff | packages/dspatch_engine/src/sync/sync_engine.rs:581-602 | an outbox entry is gone after pruning if and only if it is own, some device is known, and every known device has a cursor row for its table at or above its timestamp; nothing else changes |
| EngineSpec.AckMovesCursor | packages/dspatch_engine/src/sync/sync_engine.rs:493-503 | for an entry of any origin the cursor of the peer and the entry's table becomes its timestamp, up or down, and no other cursor moves |
| EngineSpec.AckSettlesIff | packages/dspatch_engine/src/sync/sync_engine.rs:489-506 | what is pending for a peer after its acknowledgement: of the entry's table exactly what is newer, of every other table what there was |
| NoLostUpdate.CompactionKeepsLatest | packages/dspatch_engine/src/sync/sync_engine.rs:313-342 | compaction at the writer never removes a row's last change |
| NoLostUpdate.RepliesOk | packages/dspatch_engine/src/sync/sync_loop.rs:164-189 | answers to a cursor exchange never tell the asker of a change before the changes below it |
| EndToEnd.BatchMirrors | packages/dspatch_engine/src/sync/sync_engine.rs:400-464 | a received batch, each change applied or skipped, those of other tables captured or not, keeps every row of the table equal to the effect of the newest entry of that row |
| LostUpdates.BatchKeepsPendingIff | packages/dspatch_engine/src/sync/sync_engine.rs:463-478 | an entry pending for a peer stays pending across any received batch if and only if the batch brings no change that peer made to the table, or only older ones |
| Receipt.BatchMovesCursor | packages/dspatch_engine/src/sync/sync_engine.rs:463-478 | a batch sets the cursor of every device and table it has changes of to the newest of them, up or down, and no other |
| LostUpdates.EchoLosesUpdate | packages/dspatch_engine/src/sync/outbox_hook.rs:75-121 | the echo of a writer's first change makes its unsent second one not pending, and pruning drops it, though only one application writes the table |
| LostUpdates.ReceiptLosesUpdate | packages/dspatch_engine/src/sync/table_class.rs:28-30 | in an account table a received change makes an unsent own entry not pending, and pruning drops it |
| LostUpdates.DeliveryIsEchoed | packages/dspatch_engine/src/sync/sync_engine.rs:436-464 | a delivery at a device with the gate on and no such row makes the row's last change the receiver's own, newer and waiting to be sent back |
| Receipt.EchoesAtReceiptIff | packages/dspatch_engine/src/sync/outbox_hook.rs:75-148 | for every batch, a receipt adds no own entry if and only if the gate is off or each change, when its turn comes, is skipped, hidden, beaten, failing, key-only or a delete of an absent row |
| Receipt.EchoNeverEnds | packages/dspatch_engine/src/sync/outbox_hook.rs:98-121 | two devices with the gate on that have a row go on answering one change of it with ever newer ones |
| Receipt.ReceivedDeleteTakesEffectIff | packages/dspatch_engine/src/sync/materializer.rs:175-192 | a received delete removes its row, with the gate on or off, if and only if it is not skipped as older and its table is synced and not `preferences`; no other row is touched |
| Receipt.OlderRowComesBackIff | packages/dspatch_engine/src/sync/materializer.rs:32-55 | after a received delete a row stamped no later comes back if and only if the delete left no tombstone and none else hides it |
| Receipt.RemoteDeleteLeavesTombstoneIff | packages/dspatch_engine/src/sync/outbox_hook.rs:123-148 | a received delete leaves a covering tombstone if and only if there was one, or the gate is on and it is applied and finds its row |
| Receipt.ReceiveNoResurrection | packages/dspatch_engine/src/sync/sync_engine.rs:400-464 | no received batch brings back an absent row under a tombstone by changes stamped no later, triggers or not, and the tombstone stays |
| Receipt.LocalDeleteNotResurrected | packages/dspatch_engine/src/sync/outbox_hook.rs:139-145 | a row deleted locally stays deleted under any received batch stamped no later than the delete |
| Receipt.RemoteDeleteDoesNotPreventResurrection | packages/dspatch_engine/src/sync/materializer.rs:175-192 | the row comes back with the gate off, and with the gate on if the delete arrives before the row |
| Receipt.QuietIsPlain | packages/dspatch_engine/src/sync/sync_engine.rs:400-481 | a quiet receipt is the receipt without triggers |
| Receipt.EchoStamps | packages/dspatch_engine/src/sync/outbox_hook.rs:80-96 | what a receipt captures is stamped by strictly increasing ticks of the stored clock during it |
| Receipt.NotSkippedCounts | packages/dspatch_engine/src/sync/sync_engine.rs:400-481 | the count returned is that of the changes not skipped at their turn, 0 exactly when all are skipped |
| Receipt.FirstBatchCountsAll | packages/dspatch_engine/src/sync/sync_engine.rs:400-481 | with an empty outbox a batch of changes to different rows is counted in full |
| ClockCondition.StampsUnique | packages/dspatch_engine/src/sync/sync_engine.rs:137-174 | no two changes of one device share a timestamp, recorded or captured, in one receipt or in several |
| ClockCondition.ClocksMonotone | packages/dspatch_engine/src/sync/sync_engine.rs:654-663 | no device's clock ever goes back over such a run, `persist_lamport` followed by a new engine included |
| ClockCondition.LatestIsLastMade | packages/dspatch_engine/src/sync/sync_engine.rs:137-174 | what the network keeps as a row's last change is the last one made to it in the run, recorded or captured |
| ClockCondition.IssuedIsMade | packages/dspatch_engine/src/sync/sync_engine.rs:137-174 | an id is taken exactly when a change with it has been made in the run |
| ClockCondition.BootstrapReusesStamp | packages/dspatch_engine/src/sdk.rs:883-894 | two statements before and after a start whose captured entries share their stamp |
| Convergence.StrongConvergenceOfRows | packages/dspatch_engine/src/sync/materializer.rs:65-173 | when payloads carry their change's own stamp the stamp columns agree too |
| Convergence.CompactedOutboxCovers | packages/dspatch_engine/src/sync/sync_engine.rs:313-342 | the compacted and the full outbox cover each other change by change |
| Convergence.EchoesTieIff | packages/dspatch_engine/src/sync/outbox_hook.rs:75-121 | two devices capture one received change under a common stamp if and only if their merged clocks are closer than the ticks each spends, so always if neither clock was past the change |
| Convergence.TiedEchoesLeaveRegime | packages/dspatch_engine/src/sync/outbox_hook.rs:75-121 | no set of changes with both such captures has distinct stamps per row |
| Convergence.TieSettledAsDocumentedIff | packages/dspatch_engine/src/sync/sync_engine.rs:420-428 | a tie is settled as the documentation says if and only if the incoming change should lose or the receiver's own id is not greater than the sender's |
| Convergence.TiesDivergeAtThirdDevice | packages/dspatch_engine/src/sync/sync_engine.rs:6-8 | two tied upserts taken in opposite orders leave different rows, whatever the gate |
| Convergence.FireIsWrites | packages/dspatch_engine/src/sync/outbox_hook.rs:75-148 | a received change that is captured again is a plain receipt followed by one or two own writes |
| Convergence.StatementIsWrites | packages/dspatch_engine/src/sync/outbox_hook.rs:75-148 | what the triggers capture of a statement is one or two local writes |
| Convergence.CapturedAreGood | packages/dspatch_engine/src/sync/outbox_hook.rs:75-148 | what the triggers capture meets the convergence regime although its payloads carry older stamps than the changes |
| Materializer.MaterializeIsJoin | packages/dspatch_engine/src/sync/materializer.rs:65-173 | in any order and with any duplication each row ends as the greatest by (timestamp, device id) of its initial value and the changes, ties included |
| Materializer.MaterializeOrderIrrelevant | packages/dspatch_engine/src/sync/materializer.rs:32-55 | equal sets of stamped upserts give equal tables |
| Materializer.NoResurrection | packages/dspatch_engine/src/sync/materializer.rs:32-55 | an absent row under a tombstone stays absent through any changes to it stamped no later than the tombstone, mixed with any other changes |
| StateTransfer.DeltaClosesGapIff | packages/dspatch_engine/src/sync/sync_engine.rs:750-796 | after a delta the receiver is up to date with the sender on every synced row, in stamp or in content, if and only if it already was on the synced rows stamped at most the cursor and not 0, for a cursor other than 0; with the gate off in stamps alone |
| StateTransfer.DeltaCarriesIff | packages/dspatch_engine/src/sync/sync_engine.rs:753-796 | a delta carries exactly the synced rows above the cursor or stamped 0, and all synced rows for cursor 0 |
| StateTransfer.FirstDeltaIsComplete | packages/dspatch_engine/src/sync/sync_engine.rs:764-767 | with cursor 0 no hypothesis is needed |
| StateTransfer.DeltaNeverLowers | packages/dspatch_engine/src/sync/materializer.rs:85-111 | a delta lowers no timestamp and removes no row, with the gate on as long as the clock bounds the rows |
| StateTransfer.TakenRowAsNewIff | packages/dspatch_engine/src/sync/sync_loop.rs:256-277 | a row taken with the gate on ends at least as new if and only if it is not written or the receiver's clock has caught up |
| StateTransfer.DeltaLowersStampIff | packages/dspatch_engine/src/sync/sync_loop.rs:256-277 | exactly when a received row lowers a stored (timestamp, device) stamp, for either gate |
| StateTransfer.EditAfterDeltaReachesIff | packages/dspatch_engine/src/sync/sync_loop.rs:256-277 | an edit of a row taken from a delta reaches the sender's table if and only if the tick after those the taking cost is past the row's stamp, or ties with it and the editor's id is not smaller |
| StateTransfer.OwnMaximumLeavesGap | packages/dspatch_engine/src/sync/p2p_connector.rs:210-214 | a peer that asks with its own largest stamp never receives an older row it lacks |
| StateTransfer.TableChunksPartition | packages/dspatch_engine/src/sync/sync_engine.rs:721-728 | chunk sizes are 1 to the chunk size and full but for the last, indices are 0 to total - 1, and in order the chunks are the table's rows |
| StateTransfer.ChunksInOrder | packages/dspatch_engine/src/sync/sync_engine.rs:678-732 | the chunks come table after table in the order of the synced tables |
| StateTransfer.SnapshotRoundTrip | packages/dspatch_engine/src/sync/sync_engine.rs:675-732 | all chunks in any order and repetition, taken by a database with empty tables, reproduce every synced table: rows and columns for either gate, stamps too with the gate off |
| StateTransfer.SnapshotRowAcceptedIff | packages/dspatch_engine/src/sync/sync_loop.rs:366-384 | exactly when a snapshot row replaces what is stored, and what stamp it then has |
| OutboxHook.TriggerBookkeeping | packages/dspatch_engine/src/sync/outbox_hook.rs:75-148 | over any run of statements captured timestamps strictly increase, the stored clock bounds every timestamp, each written row carries its last entry's stamp and each delete's tombstone its entry's stamp |
| OutboxHook.OutboxIsLog | packages/dspatch_engine/src/sync/outbox_hook.rs:75-148 | with fresh ids every captured entry is in the outbox after the run |
| Network.StatementIsSteps | packages/dspatch_engine/src/sync/outbox_hook.rs:75-148 | a statement that the triggers capture, local or the materializer's, is a piece of a network run: its captured entries recorded one after the other, then the tables written |
| EngineSpec.CompactionKeepsWinners | packages/dspatch_engine/src/sync/sync_engine.rs:313-342 | an own entry wins its row before compaction if and only if it does after, and exactly the winners remain |
| EngineSpec.CompactionKeepsUndelivered | packages/dspatch_engine/src/sync/sync_engine.rs:313-342 | for every cursor the rows with an own change above it are the same before and after |
| EngineSpec.CompactionUnique | packages/dspatch_engine/src/sync/sync_engine.rs:319-342 | the result of a compaction is unique |
| EngineSpec.CompactionIdempotent | packages/dspatch_engine/src/sync/sync_engine.rs:319-342 | compacting twice is compacting once |
| EngineSpec.ApplyAllHolds | packages/dspatch_engine/src/sync/sync_engine.rs:400-464 | applied or skipped, every received change leaves an outbox entry of its row at least as new |
| Invalidation.BatchesDuplicateFree | packages/dspatch_engine/src/client_api/invalidation.rs:185-208 | no batch names a table twice |
| Invalidation.StaleIsHistory | packages/dspatch_engine/src/client_api/ws.rs:110-137 | a table counts as unreported to a client exactly when it was notified after the client subscribed and no frame handed to the client since names it |
| Invalidation.FramesNameNotified | packages/dspatch_engine/src/client_api/invalidation.rs:142-209 | no false alarm: unless the client lagged a frame names only notified tables |
| Invalidation.QuietStepsEnd | packages/dspatch_engine/src/client_api/invalidation.rs:142-209 | no schedule runs for ever without a new notification or client |
| Invalidation.QuietStepProgresses | packages/dspatch_engine/src/client_api/invalidation.rs:142-209 | every step of the loop and of every client makes progress in a well-founded order |
| Invalidation.SettledIsFresh | packages/dspatch_engine/src/client_api/ws.rs:110-137 | when nothing is left to do the client has been told of every notified table |
| WatchQuery.QuietStepsEnd | packages/dspatch_engine/src/db/reactive.rs:163-206 | no run of the stream goes on for ever without a write or a notification |
| WatchQuery.QuietStepProgresses | packages/dspatch_engine/src/db/reactive.rs:163-206 | every step of the stream makes progress in a well-founded order |
| KeyManager.LinearizationPoint | packages/dspatch_engine/src/db/key_manager.rs:67-92 | each return of a call is one atomic lookup-or-create, and no other step changes the store |
| KeyManager.StoredValueIsFinal | packages/dspatch_engine/src/db/key_manager.rs:67-92 | a stored value never changes |
| KeyManager.StorageKeyInjective | packages/dspatch_engine/src/db/key_manager.rs:54-59 | different users and the anonymous user never share a storage key |
| KeyManager.SecondLookupSame | packages/dspatch_engine/src/db/key_manager.rs:67-92 | a later lookup-or-create returns the value of the first, whatever it would draw, and changes nothing |
| DirectoryNames.AssignDirNames | packages/dspatch_engine/src/server/workspace_bridge.rs:450-479 | for any iteration order no two templates share a directory and each keeps its base name unless an earlier one took it |
| DirectoryNames.Disambiguate | packages/dspatch_engine/src/server/workspace_bridge.rs:467-478 | the suffix search ends and yields the base name if it is free, else its first free suffixed form |
| DirectoryNames.PickedUnique | packages/dspatch_engine/src/server/workspace_bridge.rs:467-478 | the search has one answer |
| DirectoryNames.SuffixedInjective | packages/dspatch_engine/src/server/workspace_bridge.rs:471 | distinct suffixes give distinct candidates |
| DirectoryNames.SuffixedReads | packages/dspatch_engine/src/server/workspace_bridge.rs:471 | a candidate is the base name, an underscore and the suffix as a decimal numeral |
| Transcript.TranscriptLossless | packages/dspatch_engine/src/server/event.rs:332-357 | expanding the blocks gives every message and activity back in order, counts are positive and no two activity blocks are adjacent |
| Transcript.CountsSumUp | packages/dspatch_engine/src/server/event.rs:332-357 | the recorded counts sum to the number of activities |
| Transcript.RenderReads | packages/dspatch_engine/src/server/event.rs:332-357 | block by block the text adds the message's content, on a line of its own unless everything before was empty, or the line with the decimal count of activities and the noun in its number |
| Transcript.StableSortUnique | packages/dspatch_engine/src/server/event.rs:330 | items in order at each timestamp determine the sorted timeline |
| Transcript.MessagesFirst | packages/dspatch_engine/src/server/event.rs:318-330 | at equal timestamps all messages precede all activities |
| Heartbeat.TellsAppend | packages/dspatch_engine/src/server/connection.rs:93-169 | faithful call sequences compose |
| DecryptFailures.StreakIgnoresOthers | packages/dspatch_engine/src/sync/key_exchange.rs:200-257 | a peer's count depends on its own outcomes only |
| DecryptFailures.StreakIsConsecutive | packages/dspatch_engine/src/sync/key_exchange.rs:200-257 | the count is the longest run of failures the peer's own outcomes end with |
| DecryptFailures.ResetAtEveryThird | packages/dspatch_engine/src/sync/key_exchange.rs:223-257 | with a peer's own attempts ending in n failures the last one resets its session if and only if n is a multiple of 3 |
| LocalDatabase.Database.InsertStatement | packages/dspatch_engine/src/sync/outbox_hook.rs:75-96 | the insert and its nested triggers, as the statement semantics says; an existing key fails and changes nothing |
| LocalDatabase.Database.UpdateStatement | packages/dspatch_engine/src/sync/outbox_hook.rs:98-121 | the update and its trigger |
| LocalDatabase.Database.UpsertStatement | packages/dspatch_engine/src/sync/materializer.rs:140-170 | the materializer's upsert and the triggers of the insert or update it turns out to be |
| LocalDatabase.Database.DeleteStatement | packages/dspatch_engine/src/sync/outbox_hook.rs:123-148 | the delete, its outbox entry and its tombstone |
| LocalDatabase.Apply | packages/dspatch_engine/src/sync/materializer.rs:32-55 | tombstone check, then upsert or delete with their triggers; the error is reported exactly when the attempt fails |
| LocalDatabase.ApplyUpsert | packages/dspatch_engine/src/sync/materializer.rs:65-173 | the last-writer-wins check with its device tiebreak, then the write and its triggers |
| LocalDatabase.ApplyDelete | packages/dspatch_engine/src/sync/materializer.rs:175-192 | the delete by `id` and its trigger; it succeeds in every synced table but `preferences`, removes its row alone, and otherwise reports the error |
| Engine.SyncEngine.constructor | packages/dspatch_engine/src/sync/sync_engine.rs:56-95 | the clock starts at the larger of the stored clock and the outbox maximum |
| Engine.StartSync | packages/dspatch_engine/src/sdk.rs:883-894 | device id into the gate, clock bootstrapped from the outbox, new engine on that clock |
| Engine.SyncEngine.NextLamport | packages/dspatch_engine/src/sync/sync_engine.rs:108-110 | the clock ticks by one and the new value is returned |
| Engine.SyncEngine.MergeLamport | packages/dspatch_engine/src/sync/sync_engine.rs:118-131 | memory and stored clock move past the received timestamp and never back |
| Engine.SyncEngine.PersistLamport | packages/dspatch_engine/src/sync/sync_engine.rs:654-663 | the stored clock reaches the memory clock and never goes back |
| Engine.SyncEngine.RecordLocalChange | packages/dspatch_engine/src/sync/sync_engine.rs:137-174 | one tick and one outbox entry with that stamp |
| Engine.SyncEngine.GetOutboxSince | packages/dspatch_engine/src/sync/sync_engine.rs:178-236 | exactly the table's entries above the cursor, each once, by ascending timestamp |
| Engine.SyncEngine.CompactOutbox | packages/dspatch_engine/src/sync/sync_engine.rs:319-342 | of each row's own entries the newest stays, other devices' entries and everything else are untouched, and the count of removed entries is returned |
| Engine.SyncEngine.SyncToPeer | packages/dspatch_engine/src/sync/sync_engine.rs:349-389 | compacts, then sends everything above the peer's cursors, each entry once, in messages of 50 changes and a shorter last one, all of them or the prefix the transport took before it failed |
| Engine.SyncEngine.GatherPending | packages/dspatch_engine/src/sync/sync_engine.rs:353-370 | exactly the entries above the peer's per-table cursors, each once, ascending within a table |
| Engine.SyncEngine.ApplyRemoteChanges | packages/dspatch_engine/src/sync/sync_engine.rs:400-481 | the new state is the specified reception of the batch, triggers included, and the result counts the changes not skipped |
| Engine.HighWaterMarks | packages/dspatch_engine/src/sync/sync_engine.rs:466-475 | one mark per (device, table) pair of the batch, its largest timestamp |
| Engine.SyncEngine.AnswerCursorExchange | packages/dspatch_engine/src/sync/sync_loop.rs:164-189 | one reply for each table of the exchange that has anything above the asker's cursor, with exactly that |
| Engine.SyncEngine.GetCursor | packages/dspatch_engine/src/sync/sync_engine.rs:614-628 | the stored cursor of the peer and table, 0 if there is none |
| Engine.SyncEngine.UpdateCursor | packages/dspatch_engine/src/sync/sync_engine.rs:631-648 | that one cursor is overwritten, also by a smaller value |
| Engine.SyncEngine.HandleAck | packages/dspatch_engine/src/sync/sync_engine.rs:489-506 | the cursor of the peer and the entry's table becomes the entry's timestamp, whoever made the entry; an unknown id changes nothing |
| Engine.SyncEngine.RefreshKnownDevices | packages/dspatch_engine/src/sync/sync_engine.rs:512-561 | the known devices are the listed ones without this device |
| Engine.SyncEngine.PruneDeliveredOutbox | packages/dspatch_engine/src/sync/sync_engine.rs:570-609 | exactly the own entries at or below every known device's cursor go, nothing without known devices, and the count is returned |
| Engine.SyncEngine.MaxLamportTs | packages/dspatch_engine/src/sync/sync_engine.rs:735-748 | the largest stamp over the synced tables, at least 0 |
| Engine.SyncEngine.GenerateDelta | packages/dspatch_engine/src/sync/sync_engine.rs:753-796 | each once, exactly the synced rows above the cursor or stamped 0, all of them for cursor 0 |
| Engine.SyncEngine.TakeDeltaResponse | packages/dspatch_engine/src/sync/sync_loop.rs:256-277 | the received rows are materialized in order under the sender's id, triggers included |
| Engine.SyncEngine.TakeFullStateChunk | packages/dspatch_engine/src/sync/sync_loop.rs:352-384 | the received rows are materialized in order with timestamp 0, triggers included |
| Engine.SyncEngine.GenerateFullState | packages/dspatch_engine/src/sync/sync_engine.rs:678-732 | the chunks of all synced tables in order, each table's listing complete and each row once |
| Engine.OutboxMax | packages/dspatch_engine/src/sync/sync_engine.rs:74-79 | the largest outbox timestamp, 0 for an empty outbox |
| Invalidation.Aggregator.Flush | packages/dspatch_engine/src/client_api/invalidation.rs:185-208 | one batch is sent, naming once each exactly the first table and the tables with anything pending, and nothing stays pending |
| WatchQuery.QueryStream.Round | packages/dspatch_engine/src/db/reactive.rs:168-202 | one pass of the loop emits exactly when something was pending, and then a result of the current tables with nothing left pending |
| WatchQuery.QueryStream.DrainOne | packages/dspatch_engine/src/db/reactive.rs:194-197 | draining empties the channel unless it lagged, and then stops at the oldest retained message |
| WatchQuery.TableChangeTracker.Subscribe | packages/dspatch_engine/src/db/reactive.rs:75-105 | a receiver starts at the end of its table's channel and no other channel changes |
| WatchQuery.TableChangeTracker.Notify | packages/dspatch_engine/src/db/reactive.rs:50-62 | exactly the named table's channel gets one notification, if it exists |
| KeyManager.DatabaseKeyManager.GetOrCreateKey | packages/dspatch_engine/src/db/key_manager.rs:67-92 | a single caller gets the stored key, which stays, or the one drawn, which is stored |
| Transcript.SortByTimestamp | packages/dspatch_engine/src/server/event.rs:330 | the timeline is sorted and stable |
| Transcript.WriteTranscript | packages/dspatch_engine/src/server/event.rs:332-359 | the buffer written in one pass is the rendering of the blocks |
| Transcript.AssembleTranscript | packages/dspatch_engine/src/server/event.rs:286-360 | the transcript renders the stable merge of messages and activities |
| Heartbeat.ConnectionService.ProcessHeartbeat | packages/dspatch_engine/src/server/connection.rs:93-139 | one call for each new or changed instance with its former state, then one for each stored instance that is gone, no others and no instance twice; a consumer that follows them ends with the new map, which is stored |
| Heartbeat.ConnectionService.ProcessStateReport | packages/dspatch_engine/src/server/connection.rs:142-169 | a report is stored and told, by one call, if and only if it differs |
| Heartbeat.ConnectionService.ProcessAll | packages/dspatch_engine/src/server/connection.rs:93-169 | over any run of heartbeats and reports the calls of each run's consumer, folded, give the stored map, each with the consumer's current old state |
| DecryptFailures.PeerSessions.Decrypted | packages/dspatch_engine/src/sync/key_exchange.rs:223-257 | the stored count stays the trailing failures modulo three and the reset is due at exactly every third |
| DecryptFailures.PeerSessions.DecryptAll | packages/dspatch_engine/src/sync/key_exchange.rs:200-257 | the same over any interleaved run of outcomes for many peers |
| EngineSpec.HighWater | packages/dspatch_engine/src/sync/sync_engine.rs:466-478 | the batch mark of a (device, table) pair bounds that pair's timestamps and is one of them or 0 |
| Broadcast.ReceiveLowersUnread | packages/dspatch_engine/src/db/reactive.rs:184-187 | a receive that finds a message or a lag leaves less to read |
| Materializer.ResurrectionIff | packages/dspatch_engine/src/sync/materializer.rs:32-55 | exactly which change brings an absent row back |
| Materializer.DeleteTakesEffectIff | packages/dspatch_engine/src/sync/materializer.rs:182-189 | a delete removes its row if and only if its table is synced and not `preferences` |
| ClockCondition.BootstrapKeepsClockIff | packages/dspatch_engine/src/sync/outbox_hook.rs:37-46 | a start through the bootstrap reaches the old clock if and only if the outbox still holds an entry that recent |
| EngineSpec.BootedIsStart | packages/dspatch_engine/src/sdk.rs:883-894 | a clean stop before the start makes no difference: what it persisted is overwritten |
| OutboxHook.InsertLeavesTwoEntries | packages/dspatch_engine/src/sync/outbox_hook.rs:75-96 | an insert leaves two entries with consecutive stamps and payloads older than the row |
| Receipt.FireUpsert | packages/dspatch_engine/src/sync/materializer.rs:113-170 | an upsert changes its own key alone; a written row has the columns carried and, with the gate on, this device's stamp one or two ticks on |
| Network.AnythingMayHappen | packages/dspatch_engine/src/sync/sync_loop.rs:131-189 | the runs quantified over include every acknowledgement at any moment and repeatedly, pruning, starts, gate switches and cuts at any moment, and flushes that get through up to any message |
| Network.RecordChangeIsStep | packages/dspatch_engine/src/sync/sync_engine.rs:137-174 | `record_change` is a recording step of the network: the change as asked for, by this device, at the engine clock's next tick |
| ClockCondition.StartCaptures | packages/dspatch_engine/src/sdk.rs:883-894 | after a start the next statement that changes a row is captured under the device's own id, one tick above the outbox maximum |
| EngineSpec.StartClock | packages/dspatch_engine/src/sync/sync_engine.rs:56-95 | a new engine starts its clock at the largest of the stored clock and the outbox timestamps |
| OutboxHook.StatementShows | packages/dspatch_engine/src/sync/outbox_hook.rs:75-148 | with the gate on or off a statement leaves the columns it names, or no row, touches no other key, and does nothing where it finds nothing to do |
| OutboxHook.StatementRecords | packages/dspatch_engine/src/sync/outbox_hook.rs:75-148 | with the gate off nothing is recorded; with it on one entry, or two for a new row, of the statement's kind, table and row |
| Materializer.SyncedTables | packages/dspatch_engine/src/sync/table_class.rs:44-68 | the fifteen synced tables by name |
| SyncTypes.LessIsLexicographic | packages/dspatch_engine/src/sync/sync_engine.rs:420-428 | device ids are compared lexicographically |
| KeyManager.StorageKeyReads | packages/dspatch_engine/src/db/key_manager.rs:54-59 | the storage key is the fixed name, followed for a user by a colon and the hash |
| Invalidation.LagsIff | packages/dspatch_engine/src/client_api/invalidation.rs:24-65 | a client lags exactly when more than 64 batches behind, and then has the last 64 still to come |

## Left out

- NoLostUpdate.NoUpdateLost: is about single-writer tables with a fixed set of known devices, and supposes that no other device captures a change of the table. With the gates on that asks that nothing received of the table is written there, and every connection exchanges a delta beside the change batches (p2p_connector.rs 210-214) whose rows the gate captures too; it rests on the absence of such captures, by the exact conditions listed above. A device that joins later is served by delta and snapshot, not by the outbox.
- NoLostUpdate.PruneDropsOnlyDelivered: is a statement about the same runs; `LostUpdates.BatchKeepsPendingIff` has the condition for other tables.
- NoLostUpdate.StepKeepsInv: is about the same steps; `DeliveryKeepsInvIff`, `TransferKeepsInvIff` and `BootKeepsInvIff` have the exact conditions.
- NoLostUpdate.CatchUp: is about the same runs.
- EndToEnd.ShownOrPending: is about the same runs; peers start without rows of the table, since rows of unknown origin with later stamps would beat what they are sent.
- EndToEnd.CaughtUpShows: is about the same runs.
- Restarts.NoUpdateLostAcrossStarts: supposes that no acknowledgement lowers a cursor; without that it is false (`LostUpdates.LateAckLosesUpdate`).
- Engine.SyncEngine.HandleAck: states the update the call is meant to make; the second locking of the connection, at which the call blocks, is not modelled.
- Tombstone batches: they follow a delta or snapshot under fresh ids and would let a receiver's cursor pass changes it lacks, so they are no step of `Network`; deltas and snapshots themselves are stretches of its runs (`TransferSteps`).
- Convergence.StrongConvergence: assumes that changes to one row have distinct timestamps and that nothing is pruned, because deletes have no last-writer-wins check; ties, those of echoes included, are treated by their own lemmas.
- Convergence.StrongConvergenceOfRows: supposes payloads with their change's own stamp; those of the triggers never have it, and for them presence and columns agree.
- ClockCondition.HappensBeforeIncreases: receipt means a batch of changes; rows received by delta or snapshot do not merge the clock, so nothing is claimed through them. A start that bootstraps the clock to below where it stood is outside, with `BootstrapKeepsClockIff` as the condition.
- Runs that mix `record_change` and the triggers: each run uses one of the two clocks throughout.
- `gc_outbox` and `cleanup_old_tombstones`: they drop data by wall-clock age on purpose.
- Mutexes: each engine method is one atomic step.
- `RequestChanges` messages: handled like one table of a cursor exchange, and sent by nobody.
- Integer widths: timestamps are unbounded where the code has 64 bits, and chunk totals where it has 32.
- Row contents: payload columns are opaque; SQL text, JSON and BLOB encodings, and errors while SQLite executes a statement are not modelled. A change that names a table outside the synced ones counts as failing.
- SQL row order: ORDER BY, ROW_NUMBER and set iteration appear as loops that pick elements.
- Transport: WebRTC, relay and backend connections are links that deliver in order and may lose everything in flight; acknowledgements may arrive at any time, repeatedly or never.
- Signal encryption: only the failure counter is modelled, with each decrypt outcome an input; re-establishing a session is a flag.
- Broadcaster shutdown, rebinding to another database, closed channels, and query streams over no tables, which end at once.
- Heartbeats and reports of one connection are taken one after the other.
- Inputs that come from outside: random ids and keys, time, base names of mounts, and the choice of non-user messages are parameters.
- Windows, Flutter and FFI front ends, command dispatch, Docker and Git invocation, migrations, session store, timers and backoff, status enums: input and output, or properties visible in one body.
