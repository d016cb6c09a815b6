# Verified model of the ztap replication paths

ztap replicates Postgres tables into Delta tables and back. This project models the parts of it that carry its
guarantees and proves them for all inputs, all runs and all interleavings:

- **Forward path.** The sink consumes change messages from Kafka, batches them per Delta table, appends each batch with
  one offset marker per Kafka partition, and commits to Kafka afterwards (`SinkModel`, `SinkSafety`, `SinkProgress`,
  `SinkWrites`, `Sink`). What happens outside the covered steps is in `SinkFaults`, `SinkStale`, `SinkInterrupts` and
  `SinkReadable`. Message shape and topic names are in `Transform`, column tables in `Writer`, and the end-to-end
  statements in `FeedFidelity` and `FeedReader`.
- **Reverse path through an inbox.** The watcher reads the change feed of an inbox table, collapses it to one net change
  per key and posts it to the apply service, which writes Postgres in one transaction (`Inbox`, `InboxMirror`,
  `InboxEdits`, `Watcher`, `Postgres`). Requests that the service commits after the watcher gave up on them are in
  `InboxLate`.
- **Reverse sync with conflict policies.** One transaction per call over the table and a ledger of applied versions
  (`Conflict`, `ReverseSync`, `ReverseSyncPolicies`, `ReverseSyncSafety`, `ReverseSyncReplay`).
- **Types and schemas.** Type names as real strings in both directions (`Text`, `TypeMapping`, `TypeKinds`,
  `TypeRoundTrip`), Unity Catalog columns (`UnityCatalog`), and schema drift with its repair (`SchemaSync`).
- **Connection proxy.** The wake protocol over any number of concurrent handlers in simulated mode (`Proxy`), and the
  framing of the first client bytes (`Startup`).
- **Trino catalog.** Registration and reconciliation of discovered tables (`TrinoCatalog`), and one table's names from
  topic to catalog (`TableNames`).

Code that updates state in place is a class or a loop here too (`Sink.Process`, `Watcher.ReverseWatcher`,
`ReverseSync.SyncStore`, `Proxy.Manager`, `TrinoCatalog.Trino`, ...). Its methods are proved equal to functions on
values, and the safety results are lemmas about those functions, for every run.

The outside world enters as parameters. A call to a store ends in one of three ways: it works, it fails without effect,
or it works while the caller sees an error; clocks are the boolean `elapsed`. A kill in the middle of a flush is an
append that fails followed by a last flush that fails at its first table, so the run theorems cover it. The Delta store
keeps the contract stated at services/sink/app/writer.py:70-74: a commit is refused when one of its markers is already
applied.

Where a promise does not hold as stated, the code is followed, the exact condition is proved, and a lemma with a
concrete run or input shows the failure. The conditions speak of the state before the call and of how the stores answer:

- The consumer's own documentation says at-least-once (services/sink/app/consumer.py:3-7), the comments inside say
  exactly-once; the model follows the code, which is exactly-once under the conditions below.
- With readable markers, an assignment can double a row in Delta exactly when rows are pending, because nothing clears
  the batch (`SinkFaults.ReadableAssignExactly`; two assignments and one record are enough,
  `SinkFaults.RebalanceDoubles`).
- A start whose marker read failed can write an old row again, exactly when batches may hold two rows and a partition
  resumes at or below data that Delta holds (`SinkStale.StaleStartExactly`; a kill before the commit and one record are
  enough, `SinkStale.UnreadableDoubles`).
- A reset of a stopped sink's offsets loses a record for good exactly when it passes the record and the partition has
  no marker (`SinkFaults.ResetLosesExactly`, `SinkFaults.MissedForGood`); with a marker it changes nothing in any table
  (`SinkReadable.MarkedResetIrrelevant`).
- An interrupt after a message is polled and before it is batched lets the last flush commit an offset past it, exactly
  when something is pending, every append works and the commit takes effect (`SinkSafety.LateInterruptExact`). The
  message is then lost for good exactly when its partition has no marker, neither in Delta nor pending
  (`SinkInterrupts.LateInterruptLoses`, `SinkFaults.MissedForGood`; a run from empty stores is
  `SinkInterrupts.PolledRecordLost`).
- An interrupt after a row is batched and before its marker is raised lets the last flush write the row without a
  marker, exactly when the appends up to and including the row's table succeed (`SinkInterrupts.HalfInterruptExact`). A
  restart can then write it a second time, unless the offsets were committed and the partition had no marker in Delta or
  pending (`SinkInterrupts.HalfInterruptDoubles`, `SinkInterrupts.UnmarkedRowDoubles`); in that case the row stays in
  Delta exactly once (`SinkInterrupts.HalfInterruptOnce`).
- The documented query for the current state orders by `_ts_ms` alone, so it may show a replaced row when two changes
  of a key share a millisecond (`FeedFidelity.ForwardFidelity`, `FeedFidelity.SameMillisecond`).
- The watcher drops preimages, so an inbox update that gives a row another key leaves the old key's row in Postgres;
  every other touched key is in Postgres as it is in the inbox (`InboxEdits.MirrorsInboxExactly`,
  `InboxEdits.MovedKeyStays`).
- The collapse of inbox changes is not replay on columns the inbox omits (`Inbox.CollapseExact`,
  `Inbox.StaleColumnKept`), and an apply request that commits after its client gave up can undo newer changes
  (`InboxLate.LandExact`, `InboxLate.LateCommitUndoes`).
- A row without a version empties its key's ledger entry (`ReverseSyncSafety.DuplicateExactly`), so a call with such a
  row may not be repeatable (`ReverseSyncReplay.ReplayExactly`, `ReverseSyncSafety.UnversionedReplay`).
- A drop that fails is followed by a conflict answer that counts as success, so a reconcile can report a schema in sync
  that is not (`SchemaSync.ReconcileExact`, `SchemaSync.ReportedWhileStale`).
- An idle check and the suspension it decides are two steps, so the compute can be suspended under an open connection;
  without forced suspensions this can happen exactly when auto-suspend is on (`Proxy.OpenStaysUpExactly`).
- A table location that is not exactly two segments deep is registered and unregistered again in every cycle, unless
  the location its registered name stands for exists too (`TrinoCatalog.SecondCycleExact`,
  `TrinoCatalog.DeepLocationFlaps`).
- A table called `_delta_log` is the only one whose log files Trino's discovery takes for something else
  (`TableNames.DiscoveredExactly`).

## Model

| member | source | states |
|---|---|---|
| SinkSafety.ExactlyOnce | services/sink/app/consumer.py:57-153 | over every run of polls, flushes, failures, kills, restarts and offset resets, a partition's Delta rows are its data records up to its marker, each once, in offset order and with its own row, and no committed Kafka offset passes an unwritten data record |
| SinkSafety.StepKeeps | services/sink/app/consumer.py:107-153 | every single step of the loop or of the outside world keeps the invariant, pending batch included: it holds exactly the data records between marker and position |
| SinkSafety.RunKeeps | services/sink/app/consumer.py:47-153 | the invariant holds after any sequence of steps, whatever the batch limit |
| SinkSafety.AppendOnce | services/sink/app/writer.py:84-100 | a retried append either adds the whole batch or finds all of it there: treating a rejection as success never drops a fresh row and never doubles an old one |
| SinkSafety.FlushTablesOnce | services/sink/app/consumer.py:90-98 | a flush over many tables, started at any mix of written and unwritten tables, leaves each table either untouched or with its whole batch, and a flush that returns has written all of them |
| SinkSafety.FlushKeeps | services/sink/app/consumer.py:85-105 | a first or repeated flush either completes and restores the full invariant or stops part-way in a recoverable state |
| SinkSafety.PartWayDurable | services/sink/app/consumer.py:90-100 | dying anywhere between two table appends leaves the stores as exact as before |
| SinkSafety.ShutdownKeeps | services/sink/app/consumer.py:147-153 | leaving the loop after a failed flush, with one more flush that may fail again, loses and doubles nothing |
| SinkSafety.AssignExact | services/sink/app/consumer.py:61-73 | an assignment keeps the loop's invariant, from which exactly-once follows for every covered run, if and only if no batch is pending and no partition resumes below data that Delta already holds |
| SinkSafety.ReadableAssign | services/sink/app/consumer.py:66-70 | when every marker can be read, no partition resumes below data that Delta already holds, wherever Kafka's offset is |
| SinkSafety.ResetExact | scripts/exactly_once_test.sh:50-58 | resetting a committed offset keeps the loop's invariant, which bounds committed offsets for all partitions, if and only if it skips no unwritten data record |
| SinkSafety.BackwardResetSafe | scripts/exactly_once_test.sh:50-58 | a reset to the earliest offset, or to any offset at or below the committed one, keeps the invariant and so exactly-once |
| SinkSafety.LateInterruptExact | services/sink/app/consumer.py:126-153 | an interrupt between a poll and the batching of its message is harmless if and only if the message carries no data, nothing is pending, or an append or the commit of the last flush fails; otherwise the next start skips it exactly when its partition has a marker neither in Delta nor pending |
| SinkSafety.DataExact | services/sink/app/consumer.py:126-142 | the specification's list of data records of an offset range has each of them once, in offset order, and nothing else |
| SinkSafety.HoldsExactly | services/sink/app/consumer.py:90-93 | the per-partition invariant means: rows up to the marker, strictly rising offsets, none missing, none foreign |
| SinkSafety.DrainedIsComplete | services/sink/app/consumer.py:107-146 | at the end of a log with nothing pending, the table holds all of the partition's data records |
| SinkProgress.Drains | services/sink/app/consumer.py:107-146 | every sequence of undisturbed polls of a running sink, however the partitions interleave and batches fill, that delivers a partition often enough and ends with a flush leaves all its data records in Delta, each once, and nothing pending |
| SinkProgress.Reaches | services/sink/app/consumer.py:107-146 | undisturbed, the sink keeps running and each delivery of a partition brings it one record further, up to the end of its log |
| SinkProgress.RestartDelivers | services/sink/app/consumer.py:57-146 | whatever a run left in the stores, a restart with readable markers followed by any such polls ends with all of the partition's data records in Delta, each once and in order |
| SinkProgress.CanDrain | services/sink/app/consumer.py:107-146 | such polls exist for every log whose remaining records are readable |
| SinkWrites.ExitExact | services/sink/app/consumer.py:147-153 | leaving the loop on an interrupt, a Kafka error or an unreadable body brings a table's pending rows and markers to Delta exactly when the appends before it work and its own takes effect, commits the offsets exactly when all do and the commit takes effect, and changes nothing else |
| SinkWrites.ExitWritesAll | services/sink/app/consumer.py:147-153 | with stores that work, every exit of the loop leaves all pending rows behind their tables' rows, in order, commits the stored offsets, and ends the process |
| SinkWrites.QuietExact | services/sink/app/consumer.py:110-113 | a poll without a message writes and commits exactly when the time is up; a flush that fails anywhere ends the process after one more attempt, and a table's rows arrive exactly when one of the two attempts reaches it |
| SinkWrites.DeliverExact | services/sink/app/consumer.py:126-146 | a delivered data record joins the batch of its own table and raises its own partition's marker; the stores change exactly when the rows waiting reach the limit or the time is up |
| SinkWrites.BatchBounded | services/sink/app/consumer.py:136-146 | in every run the counter is the number of rows waiting, and fewer rows wait than the limit, or none |
| SinkFaults.ReadableAssignExactly | services/sink/app/consumer.py:61-81 | with readable markers and no fatal record between a partition's resume offset and its position, some covered continuation of an assignment breaks exactly-once in Delta if and only if rows are pending |
| SinkFaults.PendingAssignDoubles | services/sink/app/consumer.py:61-81 | for every assignment with rows of a partition pending, readable marker or not, undisturbed polls exist that write one of its rows twice, unless a fatal record lies in between |
| SinkStale.StaleStartExactly | services/sink/app/consumer.py:61-73 | in logs without a record the process dies on, a start with any set of unreadable markers can break exactly-once in Delta if and only if batches may hold two rows and some partition resumes at or below a data record that Delta already holds |
| SinkStale.StaleDoubles | services/sink/app/consumer.py:61-105 | such a partition has a run in which an old row is written again together with a new one |
| SinkStale.UnreadableDoubles | services/sink/app/consumer.py:61-105 | from empty stores, a commit that fails after the append and one unreadable marker at the next start lead to the row in Delta twice |
| SinkStale.LooseRun | services/sink/app/writer.py:84-100 | with batches of one row, every covered run from such a start keeps the stores exact: the marker refuses each old record, through failures and retries |
| SinkFaults.RebalanceDoubles | services/sink/app/consumer.py:61-105 | from empty stores, two assignments and one record leave that record's row in Delta twice |
| SinkFaults.ResetLosesExactly | services/sink/app/consumer.py:61-73 | with the sink stopped, a reset makes a data record missed if and only if it passes the record and the partition has no marker |
| SinkFaults.PassedForGood | services/sink/app/consumer.py:57-153 | a record whose offset the next start resumes past keeps the number of copies it has in Delta, through any polls, failures, kills, restarts and rebalances, unless its offset is reset to it |
| SinkFaults.MissedForGood | services/sink/app/consumer.py:57-153 | with no copy in Delta, such a record never reaches it |
| SinkReadable.MarkedResetIrrelevant | services/sink/app/consumer.py:61-73 | resetting a partition that has a marker, to any offset, changes nothing in any table, whatever follows |
| SinkReadable.ExactlyOnceDespiteResets | services/sink/app/consumer.py:57-153 | with readable markers exactly-once holds over every run even if partitions that have a marker are reset at will, forwards or backwards |
| SinkInterrupts.HalfInterruptExact | services/sink/app/consumer.py:137-153 | an interrupt after a row is batched and before its marker is raised is harmless if and only if the last flush fails at the row's table or earlier; otherwise the row is in Delta, and the next start resumes past it exactly when all appends and the commit take effect and the partition has a marker neither in Delta nor pending |
| SinkInterrupts.HalfInterruptDoubles | services/sink/app/consumer.py:137-153 | if the row is written and the offsets are not committed, or the partition has a marker, undisturbed polls after a restart write the row a second time, unless a fatal record lies in between |
| SinkInterrupts.HalfInterruptOnce | services/sink/app/consumer.py:137-153 | if the row is written, the offsets are committed and the partition has no marker, the row is in Delta exactly once after any later run without a reset to it |
| SinkInterrupts.UnmarkedRowDoubles | services/sink/app/consumer.py:137-153 | from empty stores and one record: such an interrupt and a failed commit leave its row in Delta twice after a restart |
| SinkInterrupts.LateInterruptLoses | services/sink/app/consumer.py:126-153 | an interrupt before a data record is batched makes it missed if and only if something is pending, every append and the commit take effect, and its partition has a marker neither in Delta nor pending |
| SinkInterrupts.PolledRecordLost | services/sink/app/consumer.py:126-153 | from empty stores and two records: one pending, the interrupt between the poll and the batching of the other makes that one missed |
| SinkModel.AppIdInjective | services/sink/app/consumer.py:43-44 | two partitions never share a marker name, even though a topic may contain colons |
| Sink.Lake.Append | services/sink/app/writer.py:66-100 | one atomic append with markers, refused when a marker is already applied, a refusal reported as done |
| Sink.Process.OnAssign | services/sink/app/consumer.py:61-73 | the loop over assigned partitions resumes each just past its readable marker and otherwise at Kafka's offset, and leaves the pending batch alone |
| Sink.Process.FlushBatch | services/sink/app/consumer.py:85-105 | the flush loop is the specified flush for every pattern of failures: stops at the first failing table, commits after the last, then forgets the batch |
| Sink.Process.Stop | services/sink/app/consumer.py:149-153 | the final flush runs whatever happened before, and its own failure is not retried |
| Sink.Process.Batch | services/sink/app/consumer.py:136-142 | a row joins its table's batch and its partition's marker becomes the maximum offset |
| Sink.Process.Receive | services/sink/app/consumer.py:126-146 | one message is skipped, ends the process, or is batched and flushed by size or age |
| Sink.Process.RunLoop | services/sink/app/consumer.py:107-153 | the consumer loop over any polls is the specified run and keeps the exactly-once invariant |
| Transform.TopicExactly | services/sink/app/transform.py:23-44 | a topic is accepted if and only if it is `ztap.<project>.proj_<project>.<table>`, alone or with a newline at its end, and gives that project and table |
| Transform.LocationInjective | services/sink/app/transform.py:47-49 | different project and table pairs have different storage locations |
| Transform.SharedTable | services/sink/app/transform.py:36-49 | two accepted topics write to one Delta table if and only if they differ by at most a newline at the end |
| Transform.FeedRowExactly | services/sink/app/transform.py:52-66 | a message on an accepted topic becomes a feed row if and only if it has a column of the table; tombstones and unreadable bodies become none |
| Transform.FeedRowCells | services/sink/app/transform.py:52-73 | the feed row has the table's columns as they came, the operation or `r`, the time or null, and the delete flag as a boolean, set by the text `true` in any case |
| TableNames.TopicLocation | services/sink/app/transform.py:36-49 | the topic `ztap.P.proj_P.T` is written to `s3://warehouse/P/T` |
| TableNames.DiscoveredExactly | services/trino-init/app/register.py:55-65 | the log files of a sink table are found under the table's own location if and only if the table is not called `_delta_log` |
| TableNames.TableDirExactly | services/trino-init/app/register.py:55-65 | an object key belongs to a location if and only if the location is not empty and is what precedes the key's first `/_delta_log/` |
| TableNames.NameOfAny | services/trino-init/app/register.py:68-73 | a location's schema is `proj_` and its first segment; its table is the other segments joined with `_`, or the only segment |
| TableNames.SinkTableQueryable | services/trino-init/app/register.py:68-151 | after a cycle that discovered it, a sink table is registered as `proj_P.T`, and a new name among two-segment locations points to exactly where the sink writes the topic |
| FeedFidelity.ForwardFidelity | README.md:177-185 | once a log is drained, however batches were cut and whatever crashed, the documented query shows for a key what replaying the source's inserts, updates and deletes gives, if and only if the key's changes at its greatest time agree with its last change |
| FeedFidelity.CollapseIsReplay | README.md:180-185 | the same equivalence between collapsing the change feed by time and replaying the history, for any history |
| FeedReader.EndToEnd | README.md:177-185 | from empty stores, after any covered run and any undisturbed polls that drain the log, the documented query over what a reader of the appended batches finds (nested values as text, absent columns null, batches cut anywhere) shows what replaying the source gives, if and only if the key's changes at its greatest time read like its last change |
| FeedReader.QueryReads | README.md:180-185 | the same equivalence for any rows that read as the changes of a history |
| FeedReader.ReaderSees | services/sink/app/writer.py:32-59 | a reader finds every row of the sink's table, in order, each cell as it is in the row, objects and arrays as their text |
| FeedReader.IncreasingReads | README.md:180-185 | strictly increasing times per key make the query over the reader's rows right as well |
| FeedFidelity.IncreasingAgrees | README.md:180-185 | strictly increasing times per key are enough for the query to be right |
| FeedFidelity.SameMillisecond | README.md:180-185 | two changes of a key in one millisecond let the query show the replaced row |
| FeedFidelity.EncodedRows | services/sink/app/transform.py:52-73 | the feed rows of an encoded history are exactly the marked images of its changes; tombstones add none |
| FeedFidelity.MessageRow | services/sink/app/transform.py:52-73 | a change message gives its data columns back with the operation, time and delete flag it carried |
| Writer.RowsToArrow | services/sink/app/writer.py:32-59 | the two loops build a column table in which every cell reads back as the row's own, objects and arrays as their text, with a column exactly where some row has a value, in first-seen order |
| Writer.CollectColumns | services/sink/app/writer.py:46-52 | the column union, each column once, in first-seen order |
| Writer.FirstSeenExact | services/sink/app/writer.py:46-52 | the union lists a column if and only if some row has it, never twice, and later rows only append to it |
| Writer.CellReadsBack | services/sink/app/writer.py:39-59 | every cell of a stored batch reads back as the writer normalized it, null where the column was dropped or absent |
| Writer.RowsKeptExactly | services/sink/app/writer.py:39-59 | a batch keeps all its rows if and only if it is empty or some cell in it has a value |
| Writer.BatchingTransparent | services/sink/app/writer.py:32-59 | wherever batches are cut, a reader sees all normalized rows in order under schema merge |
| Writer.ReadsEveryCell | services/sink/app/writer.py:32-59 | wherever batches are cut, a reader finds each cell of each row in order, nested values as text and absent columns as null |
| Writer.ReadsAlikeExactly | services/sink/app/writer.py:32-43 | two cells read alike if and only if they are equal or one is the text of the other, so nested values that differ stay apart |
| Writer.FeedRowHasValue | services/sink/app/transform.py:58-71 | a feed row always has a value, so dropping null columns never drops a row |
| Inbox.CollapseRefinesReplay | services/reverse-watcher/app/watcher.py:141-155 | applying one net change per key agrees with replaying every change in order, on the inbox columns, for every table and key |
| Inbox.CollapseExact | services/reverse-watcher/app/watcher.py:141-155 | on all columns the two give the same table if and only if no key is deleted and revived with a column the inbox omits and whose old value differs from its default |
| Inbox.StaleColumnKept | services/reverse-watcher/app/watcher.py:141-155 | a delete and an upsert of a key in one read leave a column the inbox omits at its old value, where replay gives its default |
| Inbox.NetIsLast | services/reverse-watcher/app/watcher.py:144-155 | the net dictionary holds exactly the last change of every key |
| Inbox.NetOrderGrows | services/reverse-watcher/app/watcher.py:144-155 | the net dictionary lists exactly the keys that occur, in the order first seen |
| Inbox.ApplyPointwise | services/sync/app/reconciler.py:234-261 | changes of different keys do not interact: the row of a key depends only on its own changes, in order |
| InboxMirror.SortedIsCommitOrder | services/reverse-watcher/app/watcher.py:141-145 | however the feed interleaves its commits, sorting by version gives the commit order back |
| InboxMirror.OverlapAbsorbed | services/reverse-watcher/app/watcher.py:136-166 | reading again from an unsaved version is harmless: what was applied before is absorbed on the inbox columns |
| InboxMirror.StepKeeps | services/reverse-watcher/app/watcher.py:128-166 | every write, read, apply, save, lost reply and crash keeps a mirrored version at or past the saved one |
| InboxMirror.RunMirrors | services/reverse-watcher/app/watcher.py:128-166 | over every run there is such a version in every state, and it never moves back |
| InboxMirror.MirrorMeaning | services/reverse-watcher/app/watcher.py:128-166 | at a mirrored version Postgres equals the inbox snapshot on inbox columns for every touched key, and is as it was for the others |
| InboxEdits.MirrorsInboxExactly | services/reverse-watcher/app/watcher.py:139-166 | over inbox transactions of inserts, updates and deletes, at a mirrored version a touched key is in Postgres as in the inbox, values and absence, if and only if no update gave its row another key for good |
| InboxEdits.MovedKeyStays | services/reverse-watcher/app/watcher.py:145-148 | from an empty table, one cycle over an insert and an update of its key leaves the row under the old key in Postgres |
| InboxMirror.CycleCatchesUp | services/reverse-watcher/app/watcher.py:128-166 | whatever went wrong before, one undisturbed cycle saves the inbox's last version and leaves Postgres mirroring all of it |
| InboxMirror.CycleExact | services/reverse-watcher/app/watcher.py:128-166 | one cycle applies the net of everything unsaved exactly when the service commits, and saves the last version exactly when nothing was to be applied or the reply came, and the save works |
| InboxMirror.RecoversFromCrash | services/reverse-watcher/app/watcher.py:128-166 | after a crash at any point of a cycle, one undisturbed cycle saves and mirrors the whole log |
| InboxMirror.LatePostExact | services/reverse-watcher/app/watcher.py:157-166 | a request that commits after its client timed out keeps the mirror if and only if no key it touches has moved on since |
| InboxLate.LandExact | services/reverse-watcher/app/watcher.py:157-166 | in runs whose requests may outlive their client, a late commit keeps the mirror if and only if the request read past everything committed so far, or no key it touches has moved on since |
| InboxLate.LateRunMirrors | services/reverse-watcher/app/watcher.py:128-166 | every run with requests given up on and committed later, in any order, keeps a mirrored version when each late commit meets that condition |
| InboxLate.LateCommitUndoes | services/reverse-watcher/app/watcher.py:157-166 | from an empty inbox, two upserts of one key with the first request committed late leave Postgres at the first value, with both versions saved |
| Watcher.Collapse | services/reverse-watcher/app/watcher.py:144-155 | the loop over the sorted feed yields one net change per key, keys in first-seen order |
| Watcher.CollectNet | services/reverse-watcher/app/watcher.py:144-153 | the dictionary loop drops preimages and keyless rows and lets later changes win |
| Watcher.ReverseWatcher.ProcessInbox | services/reverse-watcher/app/watcher.py:128-166 | one cycle is open, load, post and save of the protocol, for every way the requests can end |
| Watcher.Database.ReverseApply | services/sync/app/reconciler.py:213-246 | all changes are applied in one transaction, or none when one lacks the key |
| Postgres.UpsertKeepsWellFormed | services/sync/app/reconciler.py:249-261 | a partial-column upsert keeps every row complete and stored under its own key |
| ReverseSync.SyncStore.Sync | services/sync/app/reconciler.py:155-210 | a call commits table and ledger together for all rows, or changes neither and reports the failure |
| ReverseSyncPolicies.LastWriteWinsDoes | packages/type-engine/ztap_typeengine/conflict.py:64-83 | `last_write_wins`: a conflicting row is applied if and only if its version is above the table's, or equal with a truth other than Postgres; with a version missing on either side it is reported as an error, and otherwise as won by Postgres, changing nothing |
| ReverseSyncPolicies.SourceOfTruthDoes | packages/type-engine/ztap_typeengine/conflict.py:85-92 | `source_of_truth`: a conflicting row is applied if and only if the truth is the lakehouse, whatever the versions, and an unknown truth fails the call |
| ReverseSyncPolicies.ErrorAndMergeDo | packages/type-engine/ztap_typeengine/conflict.py:94-110 | `error` reports a conflict and changes nothing; `merge` fails the call |
| ReverseSyncPolicies.SeenOrNew | services/sync/app/state_machine.py:72-86 | under each of the four names a row at or below the ledger is skipped as a duplicate, and another row of a new key is inserted with its columns, defaults and ledger version |
| ReverseSyncPolicies.RowByRow | services/sync/app/reconciler.py:188-207 | the rows of a call are decided in order, each on what the earlier ones left, and a failure of one undoes the call |
| ReverseSyncSafety.BatchPointwise | services/sync/app/reconciler.py:188-207 | a committed call acts on each key separately, as the fold of that key's rows |
| ReverseSyncSafety.NextKeyLww | packages/type-engine/ztap_typeengine/conflict.py:64-83 | under last-write-wins a versioned row is written if and only if it is above the ledger and beats the Postgres version, ties going to the source of truth |
| ReverseSyncSafety.LwwCommits | services/sync/app/state_machine.py:75-101 | under last-write-wins versioned rows never make a call fail |
| ReverseSyncSafety.FoldReachesTarget | services/sync/app/state_machine.py:75-101 | any sequence of full rows of a key ends where its newest row alone would lead |
| ReverseSyncSafety.CallsConverge | services/sync/app/reconciler.py:188-207 | any order, duplication and split into calls of the same versioned rows ends in the same table and the same ledger |
| ReverseSyncSafety.CallsPickNewest | packages/type-engine/ztap_typeengine/conflict.py:64-83 | that common state is the newest row of each key where it beats the starting row and ledger, and the start otherwise |
| ReverseSyncSafety.SettledStays | services/sync/app/state_machine.py:56-101 | under any policy a decided row would not be written again, and no later row of the key changes that |
| ReverseSyncSafety.ReplayIdempotent | services/sync/app/reconciler.py:188-207 | under any policy, repeating a call with versioned rows changes neither table nor ledger, whether it committed or failed |
| ReverseSyncReplay.ReplayExactly | services/sync/app/reconciler.py:188-207 | under any policy and with any versions or none, repeating a committed call changes nothing if and only if no key forgets (last write wins) or is rewritten (lakehouse as source of truth), read off the key's state before the call and its own rows |
| ReverseSyncReplay.LwwReplays | services/sync/app/state_machine.py:75-101 | under last-write-wins the rows of a key change something when repeated if and only if its first row without a version is inserted over a seen ledger, and an earlier row is newer than its default version and than all rows after it |
| ReverseSyncReplay.LakeReplays | services/sync/app/state_machine.py:75-101 | with the lakehouse as source of truth, if and only if a column is not written from the first row without a version on, and the earlier rows, seen with the final ledger, write another value into it than the call leaves |
| ReverseSyncReplay.KeepingReplays | services/sync/app/state_machine.py:75-101 | under a policy that never overwrites a Postgres row, repeating a call changes nothing, whatever its rows carry and whether it commits |
| ReverseSyncSafety.UnversionedReplay | services/sync/app/reconciler.py:264-273 | with a row without a version, repeating the call writes an older row that the first call had skipped |
| ReverseSyncSafety.RowRaisesLedger | services/sync/app/reconciler.py:202-205 | whatever the policy, a row is written only with a version above the ledger, which then becomes the ledger |
| ReverseSyncSafety.LedgerSafety | services/sync/app/reconciler.py:175-207 | over every run, with anybody rewriting the table in between, the applied versions of a key rise strictly, so none is applied twice |
| ReverseSyncSafety.DuplicateExactly | services/sync/app/reconciler.py:264-273 | after a row is written, a later one of its key is skipped as a duplicate if and only if the written row had a version at least as high |
| TypeRoundTrip.ReverseTypeStable | packages/type-engine/ztap_typeengine/mapping.py:141-235 | for every accepted type string, at any array depth, mapping the reverse type gives the same Delta type and reverse type again, and a lossless type stays lossless |
| TypeKinds.KindsExactly | packages/type-engine/ztap_typeengine/mapping.py:50-235 | a type text that is no array is accepted if and only if a table of spellings lists it, and becomes exactly that table's Delta type, loss flag and reverse type: names and aliases, character types with or without a length, numbers with precision and scale, timestamps with and without precision and zone, times |
| TypeKinds.RoundtripExactly | packages/type-engine/ztap_typeengine/mapping.py:286-294 | a round trip reports exactly the reverse type and the loss flag that the table of spellings has |
| TypeKinds.ArrayKindsExactly | packages/type-engine/ztap_typeengine/mapping.py:148-164 | an array, however its brackets are spaced, is accepted exactly when its element type is, is an array of what that becomes, and is lossy |
| TypeKinds.DeltaKinds | packages/type-engine/ztap_typeengine/mapping.py:242-283 | each Delta name and alias, in any case, comes back as the Postgres type of its own table; maps and structs come back as `jsonb` |
| TypeRoundTrip.DeltaRetraction | packages/type-engine/ztap_typeengine/mapping.py:263-283 | every produced Delta type maps back, mapping that forward gives the Delta type again, and a lossless type comes back as its reverse type |
| TypeRoundTrip.ProducedTree | packages/type-engine/ztap_typeengine/mapping.py:141-235 | every produced Delta type is an array nest over a known scalar or a decimal of at most 38 digits |
| TypeRoundTrip.SameSpelling | packages/type-engine/ztap_typeengine/mapping.py:137-138 | two type texts normalize to the same text if and only if they have the same words up to case |
| TypeRoundTrip.SpellingInsensitive | packages/type-engine/ztap_typeengine/mapping.py:137-146 | type texts with the same words up to case have the same outcome, errors included |
| TypeRoundTrip.RoundtripStable | packages/type-engine/ztap_typeengine/mapping.py:286-294 | a reconstructed Postgres type reconstructs to itself, and is lossless if the original was |
| TypeRoundTrip.NormalizeCanonical | packages/type-engine/ztap_typeengine/mapping.py:137-138 | normalizing is idempotent and leaves lower-case words with single blanks |
| TypeRoundTrip.WidthKept | packages/type-engine/ztap_typeengine/mapping.py:50-68 | every spelling of a binary number type keeps its width and kind in Delta and on the way back |
| TypeRoundTrip.MapNumeric | packages/type-engine/ztap_typeengine/mapping.py:174-186 | a printed `numeric(p,s)` is parsed to its own numbers and clamped only past 38 digits |
| TypeRoundTrip.PgNameMaps | packages/type-engine/ztap_typeengine/mapping.py:50-68 | the canonical Postgres name of each scalar maps to that scalar's Delta name and back to itself, lossless |
| TypeRoundTrip.PgTextMaps | packages/type-engine/ztap_typeengine/mapping.py:141-235 | printing a Delta type tree as a Postgres type and mapping it gives the tree's Delta text, at any depth |
| TypeRoundTrip.DeltaTextMaps | packages/type-engine/ztap_typeengine/mapping.py:263-283 | printing a Delta type tree and mapping it back gives the tree's Postgres text, at any depth |
| UnityCatalog.TreeDescribed | packages/type-engine/ztap_typeengine/uc.py:38-64 | every producible Delta type has a Spark type that stands for exactly that type, and the right catalog type name with its precision and scale |
| UnityCatalog.ColumnFaithful | packages/type-engine/ztap_typeengine/uc.py:67-92 | a column of a mappable type never fails to register, and its three type fields all denote its Delta type |
| SchemaSync.DiffSchema | services/sync/app/schema_diff.py:66-84 | the loops compute the specified diff, and raise for the first unmappable column |
| SchemaSync.CompareLists | services/sync/app/schema_diff.py:71-81 | the added and retyped lists hold exactly the columns that are missing and those whose type differs |
| SchemaSync.DiffInOrder | services/sync/app/schema_diff.py:66-84 | the added, removed and retyped lists are exactly the columns they are about, each once, in the order of their own side |
| SchemaSync.PatchGivesExpected | services/sync/app/schema_diff.py:66-84 | dropping, adding and retyping what the diff lists turns the registered schema into the one Postgres calls for |
| SchemaSync.InSyncExactly | services/sync/app/schema_diff.py:46-84 | a diff is in sync if and only if both schemas are equal as maps from column to normalized type |
| SchemaSync.TypeMatchesExactly | services/sync/app/schema_diff.py:46-81 | a listed type counts as the wanted one if and only if it is that type up to case and blanks around it |
| SchemaSync.CatalogTable.Post | services/sync/app/reconciler.py:84-86 | a registration that is still there answers with a conflict and stays |
| SchemaSync.CatalogTable.ReconcileSchema | services/sync/app/reconciler.py:89-112 | detecting drift and re-registering is the specified reconcile, for every way the drop and the creation can end |
| SchemaSync.ReconcileExact | services/sync/app/reconciler.py:66-112 | a reconcile that reports success leaves the catalog in sync if and only if it already was, nothing was registered, or the drop took effect |
| SchemaSync.ReportedWhileStale | services/sync/app/reconciler.py:82-112 | a column missing from the catalog, a failed drop and a conflict answer: the reconcile reports in sync while the diff still lists the column |
| SchemaSync.ReconcileFailsExactly | services/sync/app/reconciler.py:89-112 | a reconcile fails if and only if the table is missing, a column has no mapping, or the registration of a drifted table is not accepted; only the last leaves a change, the table unregistered |
| SchemaSync.SecondReconcileIdle | services/sync/app/reconciler.py:89-112 | after a reconcile whose drop took effect, the next one finds no drift and changes nothing |
| Proxy.Manager.EnsureAwake | services/proxy/main.go:109-148 | one caller alone causes one cold start unless the compute is active, and leaves it active |
| Proxy.Manager.ConnOpened | services/proxy/main.go:156-165 | opening counts the connection and disarms the idle timer |
| Proxy.Manager.ConnClosed | services/proxy/main.go:167-177 | closing the last connection arms the idle timer when auto-suspend is on |
| Proxy.Manager.SuspendIfIdle | services/proxy/main.go:179-186 | run without interruption, suspends if and only if no connection is open |
| Proxy.StepKeeps | services/proxy/main.go:109-202 | every step of any handler or timer keeps lock exclusion, connection counts, wake accounting and what handlers know |
| Proxy.OneColdStart | services/proxy/main.go:107-148 | in every interleaving at most one handler is in the cold-start section |
| Proxy.WakesBounded | services/proxy/main.go:109-202 | cold starts never outnumber suspensions, an initial one included |
| Proxy.SingleWake | services/proxy/main.go:107-148 | any number of arrivals without a suspension cause exactly one cold start from suspended and none from active, and a handler let through finds the compute active |
| Proxy.ConnectionsCounted | services/proxy/main.go:156-177 | the counter is the number of handlers between open and close, and an armed idle timer means there is none |
| Proxy.DownOnlyAfterSuspend | services/proxy/main.go:235-269 | an open connection sits on a compute that is not active only if it was suspended after its handler saw it active |
| Proxy.OpenStaysUpExactly | services/proxy/main.go:167-186 | without forced suspensions, no interleaving leaves an open connection on a compute that is not active if and only if auto-suspend is off, from an active or a suspended start |
| Proxy.SuspendedWhileConnected | services/proxy/main.go:179-202 | with auto-suspend on, one run of two handlers ends with the second connected and the compute suspended by the first one's idle check |
| Proxy.LoneWake | services/proxy/main.go:109-148 | the lock and wake steps of a handler that is not interleaved with others come to exactly what `EnsureAwake` does |
| Proxy.LoneIdle | services/proxy/main.go:179-186 | an idle check and its suspension, not interleaved with others, suspend if and only if no handler is open: what `SuspendIfIdle` does |
| Proxy.ConnectedStaysUp | services/proxy/main.go:156-202 | from every reachable state with an open connection and no suspension decided, no interleaving suspends the compute while that connection stays open and nobody forces it |
| Proxy.IdleSuspends | services/proxy/main.go:167-186 | when the last connection closes and nobody comes, timer, check and suspension suspend the compute once if auto-suspend is on and leave it alone otherwise |
| Proxy.ForcedThenWoken | services/proxy/main.go:188-202 | a forced suspension takes the compute down whoever is connected, and the next handler alone causes one cold start and finds it active |
| Proxy.RefusedNeverWake | services/proxy/main.go:235-247 | any number of connections that never deliver a startup message neither wake the compute nor count as connections |
| Proxy.TotalCounts | services/proxy/main.go:156-165 | the total is the number of connections opened, over every run |
| Proxy.FailedDialEnds | services/proxy/main.go:249-258 | a dial that fails ends its handler for good, in every later interleaving, and is no connection |
| Startup.ReadStartup | services/proxy/main.go:207-233 | the reading loop takes from the stream, answers and returns exactly what the framing function says, for every stream and every point of failure |
| Startup.FramedIsParsed | services/proxy/main.go:207-233 | a successful read consumed exactly k eight-byte encryption requests and the returned bytes, and sent k declines |
| Startup.ParsedIsFramed | services/proxy/main.go:207-233 | a stream of requests followed by a message is read to exactly that message, and nothing after it is taken |
| Startup.SucceedsExactly | services/proxy/main.go:207-233 | reading succeeds if and only if the stream begins that way and the client accepts the declines |
| Startup.StartupVerbatim | services/proxy/main.go:204-231 | a StartupMessage (section 55.7 of the PostgreSQL 16 documentation) is returned byte for byte after any number of declined requests |
| Startup.RequestExactly | services/proxy/main.go:214-216 | exactly two eight-byte headers are declined: the SSLRequest and the GSSENCRequest of section 55.7 of the PostgreSQL 16 documentation, byte for byte |
| Startup.RequestDeclined | services/proxy/main.go:216-222 | either request is answered with the letter N and what follows is read as if nothing had come before; if the answer cannot be sent, reading fails |
| Startup.Conn.ReadFull | services/proxy/main.go:209-212 | fills the buffer, or takes what is left of the stream and fails |
| TrinoCatalog.DiscoverTables | services/trino-init/app/register.py:55-65 | a location is discovered if and only if some object key has it, not empty, before its first Delta log marker |
| TrinoCatalog.TwoSegmentName | services/trino-init/app/register.py:68-73 | for two-segment locations the registered name and the location determine each other |
| TrinoCatalog.RegisterAllAt | services/trino-init/app/register.py:142-148 | registration adds exactly the discovered names and never moves a name that is taken |
| TrinoCatalog.Trino.Register | services/trino-init/app/register.py:84-98 | a name that exists is left alone and counts as not new |
| TrinoCatalog.Trino.RegisterDiscovered | services/trino-init/app/register.py:140-148 | the loop registers every location and counts the new ones |
| TrinoCatalog.NewCounted | services/trino-init/app/register.py:140-148 | the count that a registration reports is the number of names it adds |
| TrinoCatalog.Trino.ReconcileSchema | services/trino-init/app/register.py:108-131 | the inner loop keeps exactly the tables whose data exists, drops an emptied schema, and counts exactly the tables it removes |
| TrinoCatalog.Trino.ReconcileAll | services/trino-init/app/register.py:101-132 | the nested loops reconcile every prefixed schema in any order, leave the others alone, and count exactly the tables removed |
| TrinoCatalog.Trino.RunCycle | services/trino-init/app/register.py:135-151 | a cycle is registration followed by reconciliation; tables before plus the reported additions minus the reported removals are the tables after |
| TrinoCatalog.CycleExact | services/trino-init/app/register.py:101-151 | from any catalog, a cycle over two-segment locations leaves prefixed schemas with exactly the discovered tables and none empty, keeps locations already registered, and leaves other schemas untouched |
| TrinoCatalog.SecondCycleExact | services/trino-init/app/register.py:135-151 | a second cycle registers nothing if and only if every registered name points back to a discovered location |
| TrinoCatalog.DeepLocationFlaps | services/trino-init/app/register.py:135-151 | a three-segment location is registered again by the cycle after the one that registered it |
| TrinoCatalog.SecondCycleIdle | services/trino-init/app/register.py:135-151 | with two-segment locations a second cycle adds, removes and changes nothing |

## Left out

- SinkSafety.ExactlyOnce: covers one sink process; rebalances with a pending batch, failed marker reads and forward offset resets are in it only where the conditions of AssignExact and ResetExact hold, and the two interrupts inside one message are separate results (LateInterruptExact, HalfInterruptExact).
- SinkSafety.AssignExact: speaks of the loop's invariant; what an assignment does to Delta is stated by SinkFaults.ReadableAssignExactly and SinkStale.StaleStartExactly, both for logs without a record the process dies on.
- FeedReader.EndToEnd: assumes in addition that no key value is an object or array, which a reader could not tell from its text.
- FeedFidelity.ForwardFidelity: assumes columns that do not use the sink's own names, and that a key is published to one partition only, as Kafka's keyed partitioning does.
- InboxMirror.RunMirrors: a request ends before the watcher goes on, committed or not; InboxLate.LateRunMirrors adds those that outlive it. Both assume an append-only inbox and no other writer of the Postgres table; what updates that change the key do is stated by InboxEdits.MirrorsInboxExactly.
- ReverseSyncSafety.CallsConverge: assumes rows that carry every table column and equal content for equal versions; with partial rows the outcome depends on the order.
- ReverseSyncSafety.ReplayIdempotent: assumes a version on every row, and then covers failing calls too; ReverseSyncReplay.ReplayExactly is the condition for committed calls with any rows.
- SchemaSync.PatchGivesExpected: assumes distinct column names and mappable types; Postgres guarantees the former.
- TrinoCatalog.CycleExact: assumes locations of exactly two segments and a cycle without Trino errors; name case folding is not modelled, and the sorted order of locations is not either, since the result holds for every order.
- Proxy.SingleWake: simulated mode only; `autoSuspend` stands for the flag together with a positive idle timeout.
- Kafka, S3, delta-rs, psycopg, HTTP, Docker and Trino clients: replaced by small stores with the outcomes described above; Kafka retention gaps count as records without data.
- The writer's reading of exception messages (services/sink/app/writer.py:93-98): an append is done, failed, done with the reply lost, or refused as a duplicate.
- Message bodies: a body that is not JSON, or not an object on an accepted topic, ends the process; on a topic the sink rejects, a non-object body is skipped like any other message there. Fractional numbers and the text of nested `__op` values are not part of the cell type.
- Arrow and Delta type inference and the JSON text of nested values: the latter is kept as its canonical text; the sink's run model keeps feed rows as they are, and Writer shows what a reader finds.
- The encoding, note and metadata fields of a logical type, and the messages and reasons in results.
- Text outside ASCII, and Python's limit on the length of integer literals.
- Ledger keys are `str(pk)` in the source; distinct keys are taken to have distinct texts. Version values that are not integers count as no version.
- Postgres constraint and type errors, tables without a primary key, and dropped or recreated inboxes; JSON-safe conversion of inbox values happens before the model begins.
- The merge policy with a callback: reverse sync never passes one, so only the failing branch is reachable from it.
- Real-mode suspension through Docker, readiness polling, the byte splice, metrics and the status page.
- The control plane, dashboards, scripts, settings, compose files and the outer polling loops.
