# A verified model of dtdb

dtdb is a relational database: tables with locality groups and secondary indexes over ordered
storage engines, optimistic transactions, a redo log, full-text search, an external sort and a
streaming transaction protocol. This project models its concurrency control, recovery, index
maintenance, scans, codecs and protocol in Dafny and proves what they promise together.

`dafny verify dfyconfig.toml` checks everything.

## What is proved

* **Serializability.** `Transactions` is an interleaving of atomic steps over live engines and a
  pruned commit history. Reads go to storage that another commit may have reached only in part;
  `SerialRuns` proves that whatever commits saw the state of a serial run in commit order,
  `SerialSteps` says it over the Read and Write steps alone, `ExactChecks` that validation refuses
  nothing else, and `Progress` that nothing but a clash keeps a transaction from committing.
  `SerialQueries` and `SerialScans` carry this to merged rows and whole table, index and full-text
  scans. Unregistering is three steps, as in the source; `LateLoad` has the run in which they lose a
  record, `SerialRuns.RunSafeExactly` says exactly which runs do not, and `Pruning` what is kept.
* **Recovery.** `Recovery` lets every engine survive a crash at its own prefix of batches, at any
  moment, replay included; `Durability` proves that every cell comes back as the last Commit step
  left it, and that every state can come up again. `TableStore` has the write path and the replay
  loop as methods on an object, and `Replay` says exactly which logs recover when records lack their old rows.
* **Indexes and scans.** Index maintenance, backfill, B-tree and full-text scans under a write
  buffer, streaming and collecting scans, group split and merge, and LIKE through trigrams each
  equal the simple thing: filtering the rows.
* **Sorting, codecs, evolution, parsing, protocol, statistics.** External merge through run files in
  an order of numbers, strings and bytes; projected decoding; what rows stored before any ALTERs
  read as; a parser that is exact on every text; the transaction stream from the caller's call to
  the database's answer; the posting-length bound.

## How the model is cut

| modules | contents |
|---|---|
| `Values`, `Ordered`, `Cursors`, `Bounds`, `Utf8` | keys and their order, range scans, cursors, full-range bounds, string bytes |
| `Schemas`, `Indexes`, `Stores` | columns and groups, index entries, engines as images of tables |
| `Occ`, `Transactions`, `Serializability`, `SerialRuns`, `SerialSteps`, `ExactChecks`, `Pruning`, `Progress`, `LateLoad`, `SerialQueries`, `SerialScans`, `ClientSteps` | validation, the step machine, the invariant, all runs, the same over steps, what the history keeps, what can always go on, the late version load, what clients computed and recorded |
| `TableWrites`, `TableStore`, `Backfill`, `IndexCreation` | write batches, the table object, index creation |
| `RedoLog`, `Replay`, `Recovery`, `RecoveryRuns`, `Durability` | what the log means, replay as a function, crashes and replay, all runs, what comes back |
| `TransactionReads`, `ScanIterator`, `IndexScans`, `BTreeScan`, `Queries`, `FullText`, `TextScan`, `LikePlan` | the read side of a transaction |
| `GroupScan`, `Evolution`, `AlterRuns`, `RowCodec` | locality groups, schema changes and all their runs, rows on the wire |
| `SortOrder`, `RunFiles`, `KWayMerge` | external sorting |
| `QueryParser`, `QueryGrammar`, `QueryText`, `TransactionRpc`, `Statistics` | query language, its grammar and its texts, protocol, estimates |

Assumed at the boundary:

* A storage engine is an ordered map. A batch is atomic in one engine, an engine read is one moment
  of that engine, and a synced batch survives a crash.
* The log returns the records that were appended, in order.
* A tokenizer is a fixed function of its text. White space, upper case and the character tables of
  lowercasing come from outside as functions; the final-sigma rule over those tables is modelled.
* The encodings of dates, times, timestamps and decimals are function pairs that are lossless on the
  values those types have; `RowCodec.FixedWireFaithful` gives such a pair. Run files are proved for
  every codec that is lossless on the rows it can encode, and the row format is one.
* A float is its 64-bit pattern, and a decimal is a count of 10^-28 units.

Where code and comments part, the model follows the code:

* A comment on merging rows says that missing groups give NULL; the code gives column defaults.
* The tokenizer contract says that planned LIKE tokens occur in every match. That fails for a
  capital sigma whose form a wildcard leaves open; `LikePlan.FormKeptExactly` and
  `LikePlan.SoundExactly` give the condition, `LikePlan.ContextDropsMatch` the shortest input.
* Unregistering releases the lock of the active set before it loads the version. The theorems about
  runs hold for the runs that `SerialRuns.RunSafeExactly` characterises, in particular whenever no
  transaction registers in that gap, and `LateLoad.LateLoadBreaksSerializability` shows one that fails.
* A redo record may lack its old rows. `Replay.RecoversExactly` says when the log still recovers, and
  `Replay.BareUpdateExposed` is a log that does not.
* An index scan with composite bounds compares buffered rows by their leading column against the
  whole bound, and so returns none of them; `BTreeScan.FilterMakesExact` says what that costs.
* Full-range string bounds stop at the single character U+10FFFF. `Bounds.WithinTypeExactly`,
  `BTreeScan.FilterMakesExact` and `Backfill.BackfillComplete` say exactly what that leaves out.

## Model

| member | source | states |
|---|---|---|
| `SerialRuns.EveryRunIsSerializable` | dtdb_relational/src/transaction.rs:967-1141 | In every interleaving of snapshot-isolation transactions whose prunes are harmless, commit number i saw in every tracked point read, range scan and index scan exactly what the engines hold after commits 0..i-1 ran alone, even when it read while another commit was half applied; its old rows are true pre-images; a validated read-only transaction saw the state it validated in; SerialSteps says the same over the steps themselves, without the recorded commits |
| `SerialSteps.EveryReadIsSerial` | dtdb_relational/src/transaction.rs:967-1141 | Every key that a Read step of a finished transaction selected had, at the moment of that step, the cell of the serial row: the row that the last Write steps of exactly the transactions that finished before it give |
| `SerialSteps.EveryCheckedReadIsSerial` | dtdb_relational/src/database.rs:2425-2469 | The same for a read-only transaction: when its check passes, all its Read steps saw the row of the transactions finished by then |
| `SerialSteps.EveryWriteIsKept` | dtdb_relational/src/transaction.rs:1110-1127 | Whenever no commit is in progress, every cell of every group and index engine is that of the serial row: no write of a finished transaction is lost and nothing else is there |
| `SerialSteps.EveryBufferHoldsItsWrites` | dtdb_relational/src/transaction.rs:131-167 | In every run the buffer of a transaction holds under each key exactly its last Write step since it registered or rolled back |
| `ExactChecks.EveryCheckIsExact` | dtdb_relational/src/database.rs:2284-2469 | In every run whose prunes are harmless each of the three checks passes if and only if no transaction that finished since this one registered changed a key that this one tracked, scanned or writes, all read off the steps |
| `Progress.EveryClearCommitFinishes` | dtdb_relational/src/transaction.rs:967-1141 | In every state of such a run in which no commit holds the history, a transaction with writes that clashes with no finished one can fetch, validate, apply and finish by its own steps |
| `Progress.EveryWriterFinishes` | dtdb_relational/src/database.rs:2351-2423 | In every state of such a run the commit that holds the history can apply its remaining batches and finish |
| `ExactChecks.EveryTrackIsRecorded` | dtdb_relational/src/transaction.rs:171-350 | The read set and the scan ranges of a transaction hold exactly what its tracking steps since registration name |
| `ClientSteps.WriteIsStep` | dtdb_relational/src/transaction.rs:131-167 | What Put and Delete do to a buffer is a Write step of the run theorems |
| `ClientSteps.RangeIsStep` | dtdb_relational/src/transaction.rs:281-300 | What a scan records is a TrackRange step |
| `ClientSteps.ReadsAreSteps` | dtdb_relational/src/transaction.rs:209-262 | What a multi-get records is a run of TrackKey steps |
| `ClientSteps.PointReadsAllowed` | dtdb_relational/src/transaction.rs:209-262 | Recorded keys may be read from every engine of their table |
| `ClientSteps.ScansAllowed` | dtdb_relational/src/transaction.rs:281-350 | A recorded range may be scanned in every engine under its name |
| `SerialRuns.EveryRunPrunesSafely` | dtdb_relational/src/database.rs:2249-2270 | In every state of a run whose prunes are harmless the history holds the record of every commit newer than the start version of every registered transaction, although unregistering releases its locks twice and the commit takes its limit before the write lock |
| `Pruning.EveryHistoryIsExact` | dtdb_relational/src/database.rs:2249-2270 | In every such run the history holds, in order, exactly one record for each version from the largest limit a prune had so far up to the present version, the limits read off the steps |
| `SerialRuns.RunSafeExactly` | dtdb_relational/src/database.rs:2249-2264 | A run keeps those records in all its states if and only if every prune in it is harmless: no registered transaction that has something newer starts more than one version below the limit |
| `LateLoad.GaplessIsCareful` | dtdb_relational/src/database.rs:2249-2264 | All prunes are harmless when no transaction registers between an unregistering one finding the active set empty and its prune |
| `LateLoad.LateLoadPrunes` | dtdb_relational/src/database.rs:2249-2264 | A run from the start in which a transaction registers in that gap, two others commit, and the late version load prunes a record that it needs |
| `LateLoad.LateLoadBreaksSerializability` | dtdb_relational/src/database.rs:2249-2264 | The same run goes on to commit the stale read: the reachable history is not serializable in commit order |
| `SerialRuns.EveryRunKeepsEnginesInStep` | dtdb_relational/src/database.rs:206-452 | In every state of such a run with no commit in progress, each group engine holds exactly its part of the logical rows and each B-tree or full-text index exactly the entries of the live rows |
| `SerialRuns.EveryRunValidatesOnce` | dtdb_relational/src/database.rs:2284-2423 | With any commits and harmless prunes between the two scans, the second scan accepts exactly when no commit since the start of the transaction, pruned or not, conflicts with its reads, ranges or writes |
| `SerialRuns.StepKeeps` | dtdb_relational/src/database.rs:2272-2423 | Every step of every transaction (register, track, read, write, fetch, validate, take the limit, apply one batch, publish, leave, load the version, prune harmlessly) keeps the invariant behind these theorems |
| `SerialQueries.CommittedRowIsSerial` | dtdb_relational/src/transaction.rs:171-262 | A row that a committed transaction put together from group reads taken at different moments is the row of the serial state it committed in |
| `SerialQueries.CommittedIndexScanIsSerial` | dtdb_relational/src/transaction.rs:467-500 | The primary keys a committed transaction took from an index range are those the serial state's index has in that range |
| `SerialScans.CommittedTableScanIsSerial` | dtdb_relational/src/database.rs:621-704 | A committed transaction's scan over group engines, each read at another moment, lists exactly the rows of the serial table in range, in key order |
| `SerialScans.CommittedOverlayScanIsSerial` | dtdb_relational/src/transaction.rs:281-350 | With any buffered writes laid over it, that scan lists the rows in range of the serial table under the same writes |
| `SerialScans.CommittedIndexRowsAreSerial` | dtdb_relational/src/transaction.rs:401-590 | The rows a committed transaction gathered from an index range, from row fetches and from its own buffer are those the same scan returns on the serial table |
| `SerialScans.CommittedTextRowsAreSerial` | dtdb_relational/src/transaction.rs:662-740 | The rows a committed transaction gathered for a full-text query and from its own buffer are those the same query returns on the serial table |
| `SerialQueries.CommittedTextQueryIsSerial` | dtdb_relational/src/transaction.rs:742-917 | A full-text query a committed transaction evaluated token range by token range found exactly the rows of the serial state whose own tokens satisfy it |
| `Serializability.TwoPhaseIsOneScan` | dtdb_relational/src/database.rs:2284-2423 | Two validation scans, split at the newest version the first one saw, find a conflict exactly when one scan of every commit since the start would |
| `Serializability.ClearPlan` | dtdb_relational/src/transaction.rs:1026-1097 | When no commit since the start conflicts with the written keys, the old rows fetched before validation are the pre-images in the serial state |
| `Serializability.RetainSafe` | dtdb_relational/src/database.rs:2418-2420 | Pruning at a limit keeps everything a transaction needs if and only if the limit is at most one past its start version or nothing newer exists |
| `Serializability.PruneSafeExactly` | dtdb_relational/src/database.rs:2249-2264 | The last part of an unregister keeps what every registered transaction needs if and only if its limit is at most one past the start version of each that has something newer |
| `Serializability.LeastIsHarmless` | dtdb_relational/src/database.rs:2250-2259 | A limit taken from a transaction that was still registered satisfies that condition, whatever happened in between |
| `Occ.ScanHistory` | dtdb_relational/src/database.rs:2284-2342 | The scan reports a conflict exactly when a record newer than the given version touches a read key, a scanned range or a written key |
| `Occ.HasConflict` | dtdb_relational/src/database.rs:2289-2335 | One record conflicts exactly when one of its keys is covered by the footprint |
| `Occ.MinStart` | dtdb_relational/src/database.rs:2345-2348 | The smallest start version among the registered transactions, None exactly when there are none |
| `Occ.Database.RegisterTransaction` | dtdb_relational/src/database.rs:2231-2239 | Registers at the current version and changes nothing else |
| `Occ.Database.LeaveActive` | dtdb_relational/src/database.rs:2250-2254 | The first part of unregistering removes the transaction and returns the least start version left, None exactly when none is left |
| `Occ.Database.ValidateSnapshot` | dtdb_relational/src/database.rs:2284-2342 | First scan: fails exactly on a conflict newer than the start, and otherwise returns the newest version it has covered |
| `Occ.Database.ValidateDelta` | dtdb_relational/src/database.rs:2351-2400 | Second scan: accepts exactly when no record newer than the snapshot version conflicts |
| `Occ.Database.RecordCommit` | dtdb_relational/src/database.rs:2411-2422 | Publishes the commit under the next version and prunes with the limit taken earlier, or with the new version when there was none |
| `Occ.Database.ValidateReadOnly` | dtdb_relational/src/database.rs:2425-2469 | A read-only transaction passes exactly when no record newer than its start touches what it read or scanned |
| `Stores.StoreStep` | dtdb_relational/src/database.rs:165-455 | A write batch built from true pre-images moves every engine from the image of the old tables to the image of the new ones |
| `Stores.WriteKeysCover` | dtdb_relational/src/transaction.rs:1026-1097 | Every engine cell a commit changes lies under a key the commit declares for validation |
| `Stores.WriteKeysExactly` | dtdb_relational/src/transaction.rs:1026-1097 | The declared keys are exactly the written primary keys and the index keys that a changed row has before or after |
| `Stores.FetchedArePreimages` | dtdb_relational/src/transaction.rs:1026-1060 | Old rows merged from fetched group cells are the pre-images whenever the cells are the current ones |
| `Indexes.IndexStep` | dtdb_relational/src/database.rs:206-452 | Dropping the old rows' entries and putting the new rows' entries turns the index of a table into the index of the changed table |
| `TableWrites.BuildBatches` | dtdb_relational/src/database.rs:165-455 | The batches built entry by entry have, per group and per index, the net effect of the whole set of changes |
| `TableWrites.GetIndexKeys` | dtdb_relational/src/database.rs:108-162 | The keys declared for a row are exactly the keys of its index entries |
| `TableWrites.EntryMutations` | dtdb_relational/src/database.rs:206-452 | The mutations for one changed row delete every entry of the old row and put every entry of the new one |
| `TableWrites.TokenPositions` | dtdb_relational/src/database.rs:293-303 | Each token of a text is mapped to its ascending positions |
| `TableStore.Store.MultiGet` | dtdb_relational/src/database.rs:553-618 | Returns for each requested key the row merged from the groups that have a sub-row, and no other key |
| `TableStore.Store.WriteBatch` | dtdb_relational/src/database.rs:165-455 | Patches every engine of the table with its batch, from given old rows or from rows refetched from the live engines, and leaves other tables alone |
| `Durability.EveryRunIsDurable` | dtdb_relational/src/database.rs:2057-2220 | After any run of commits, engine syncs, checkpoints, crashes (every engine losing its own tail, also during replay) and replays, whenever the database is up every cell of every engine is that of the row which the last Commit step changing it gave, and nothing else is there |
| `Durability.EveryStateRecovers` | dtdb_relational/src/database.rs:2145-2220 | From every state of every run, crashed and half-replayed ones included, the database can come up by its own steps |
| `Durability.EveryBufferCommits` | dtdb_relational/src/transaction.rs:1110-1127 | A running database accepts every buffer that fits its tables and can bring it to all engines |
| `Durability.EveryLogEmpties` | dtdb_relational/src/database.rs:2057-2143 | A running database can get to an empty log by syncs and one truncation, with the contents of every engine unchanged |
| `Durability.CrashCutsTails` | dtdb_relational/src/database.rs:2057-2143 | A crash keeps the log and leaves each engine its durable state with the first of its unsynced batches, a number of its own |
| `RecoveryRuns.StepKeeps` | dtdb_relational/src/database.rs:2057-2220 | Every commit, apply, sync, truncate, crash and replay step keeps the durability invariant |
| `TableStore.Store.RecoverTransactions` | dtdb_relational/src/database.rs:2145-2220 | From any engines and any log, with or without old rows, the replay loop leaves the engines that replaying record after record gives, tables in any order |
| `Replay.RecoversExactly` | dtdb_relational/src/database.rs:2145-2220 | Replay turns every mixture of surviving engines into the tables and indexes of all logged transactions if and only if no record without old rows is the first to change a row with an index entry that no later version has |
| `Replay.LoggedRecovers` | dtdb_relational/src/database.rs:2145-2220 | Logs whose records carry their old rows recover every survivor |
| `Replay.FreshRecovers` | dtdb_relational/src/database.rs:181-204 | So do logs in which whatever a record without old rows changes had no row before it |
| `Replay.BareUpdateExposed` | dtdb_relational/src/database.rs:181-204 | One update of an indexed column logged without its old row does not recover: with the group ahead of the index the old entry stays |
| `Replay.GroupReplayed` | dtdb_relational/src/database.rs:2188-2210 | Under replay a group cell is exact once a record wrote it and unchanged before, whatever old rows there are |
| `TableStore.Store.ReplayRecord` | dtdb_relational/src/database.rs:2188-2210 | Replaying one record gives every engine its batch, built from the logged old rows or from the live groups as they were before the record |
| `RedoLog.ProgressStep` | dtdb_relational/src/database.rs:2145-2220 | A replayed batch moves an engine from records 0..n-1 repaired to records 0..n repaired |
| `RedoLog.ProgressEnd` | dtdb_relational/src/database.rs:2145-2220 | An engine repaired through the whole log holds exactly the image of the logged tables |
| `RedoLog.PriorsForUsable` | dtdb_relational/src/database.rs:181-204 | For a record with logged old rows, the rows its replay works from are right wherever there was a row: a table without logged rows is refetched and had none |
| `RedoLog.ServedBatchRedoes` | dtdb_relational/src/database.rs:2188-2210 | A batch redoes its record at every cell when its old rows name the entries that no later version has again |
| `RedoLog.AdmissibleKeepsStart` | dtdb_relational/src/database.rs:2145-2220 | No batch, new or replayed, takes an engine outside the states that replay can repair, so a second crash during recovery is covered |
| `Recovery.SurvivorsRepairable` | dtdb_relational/src/database.rs:2111-2143 | Every prefix of unsynced batches that a crash may leave is repairable |
| `Backfill.CreateIndex` | dtdb_relational/src/database.rs:2600-2664 | Fails exactly when a scanned row has a present value without a key in an index column; otherwise leaves precisely the index of the scanned rows |
| `Backfill.IndexKeyParts` | dtdb_relational/src/database.rs:2633-2649 | Collects the keys of the non-null index columns and fails exactly on a present value without a key |
| `Backfill.BackfillComplete` | dtdb_relational/src/database.rs:2600-2606 | The new index is the index of the whole table if and only if no row outside the primary key bounds has an entry |
| `IndexCreation.CreatedIndexStarts` | dtdb_relational/src/database.rs:2600-2664 | After any run, creating an index leaves a start state for the extended catalog if and only if the backfill was complete |
| `IndexCreation.CreatedIndexFollows` | dtdb_relational/src/database.rs:2600-2664 | After a complete backfill and any number of later commits the index is the index of the live rows |
| `Bounds.WithinTypeExactly` | dtdb_relational/src/schema.rs:36-58 | The full-range bounds cover every key of the type except a time in the last leap second and a string that continues after U+10FFFF |
| `Bounds.PartsWithinBounds` | dtdb_relational/src/schema.rs:590-612 | A key whose every part is within its column's bounds is within the primary key bounds |
| `Bounds.BoundsNeedKey` | dtdb_relational/src/schema.rs:590-612 | There are primary key bounds exactly when some column belongs to the primary key |
| `Bounds.PkColumnsExact` | dtdb_relational/src/schema.rs:590-612 | The bounds go over exactly the primary key columns, in column order |
| `Schemas.MergeSplit` | dtdb_relational/src/schema.rs:302-363 | Splitting a row over all its groups and merging the pieces gives the row back |
| `Schemas.SplitRow` | dtdb_relational/src/schema.rs:302-313 | Builds the sub-row of one group |
| `Schemas.MergeRows` | dtdb_relational/src/schema.rs:352-363 | Builds the full row from the sub-rows found, defaults elsewhere |
| `Schemas.SplitHolds` | dtdb_relational/src/schema.rs:302-313 | The sub-row of a group has one value per column of the group, each at the place that counts the earlier columns of the group |
| `Schemas.MergeReads` | dtdb_relational/src/schema.rs:352-363 | A merged row has at each column the value at that place, and the default where the sub-row is missing or too short |
| `Schemas.RelativeIndexCounts` | dtdb_relational/src/schema.rs:318-333 | The place of a column in its group's sub-rows is the number of earlier columns of that group |
| `GroupScan.TableScan` | dtdb_relational/src/database.rs:621-704 | The cursor merge over group scans lists the merged rows of all keys in range, in key order |
| `GroupScan.TableIterator.Advance` | dtdb_relational/src/database.rs:879-966 | One step, by merge or by the single-group path, makes the least remaining row ready |
| `GroupScan.TableIterator.TakeNext` | dtdb_relational/src/database.rs:869-877 | Hands out the remaining rows one by one in order |
| `GroupScan.StreamTable` | dtdb_relational/src/database.rs:784-966 | Streaming a table gives exactly what the collecting scan gives |
| `GroupScan.SingleGroupMerge` | dtdb_relational/src/database.rs:885-911 | In a table with one group, padding the stored sub-row equals merging it |
| `GroupScan.GroupsInvisible` | dtdb_relational/src/database.rs:621-704 | Scanning the group engines of a table lists exactly the rows of the table in range |
| `GroupScan.EveryStateScansAsTable` | dtdb_relational/src/database.rs:351-371 | In every state a commit can leave, all groups of a table have the same keys and a scan sees the table |
| `FullText.EvalQuery` | dtdb_relational/src/transaction.rs:742-917 | Finds exactly the primary keys that satisfy the query entry by entry on the index, and records every range it scans |
| `FullText.EvalPhrase` | dtdb_relational/src/transaction.rs:815-915 | Intersects the postings and keeps the keys with contiguous positions; nothing for the empty phrase |
| `FullText.Contiguous` | dtdb_relational/src/transaction.rs:887-912 | Finds a start position that all tokens follow if there is one |
| `FullText.IndexAgrees` | dtdb_relational/src/transaction.rs:919-964 | On the index of a table every And/Or/Token/non-empty-Phrase tree finds exactly the rows in bounds whose own token sequence satisfies it |
| `FullText.EmptyPhraseDiffers` | dtdb_relational/src/transaction.rs:815-818 | For the empty phrase index and row evaluation agree on a row if and only if the row has no text |
| `FullText.RangesDecide` | dtdb_relational/src/transaction.rs:752-765 | The answer depends only on the entries within the recorded ranges |
| `TextScan.FullTextScan` | dtdb_relational/src/transaction.rs:662-740 | Returns each row once: first those the index finds, in ascending key order and as the transaction sees them, then buffered rows that satisfy the query; records ranges and reads |
| `TextScan.RecheckMakesExact` | dtdb_relational/src/transaction.rs:662-740 | With the query re-checked the scan equals filtering the overlaid table if and only if every unbuffered stored row that satisfies it has its key in bounds |
| `TextScan.ExtrasAreOverwritten` | dtdb_relational/src/transaction.rs:662-740 | Before the recheck, a returned row that does not satisfy the query is one this transaction overwrote |
| `TextScan.BuildAnd` | dtdb_relational/src/transaction.rs:646-657 | Builds the left-deep conjunction, None for no tokens |
| `TextScan.AndOfTokensMeans` | dtdb_relational/src/transaction.rs:625-657 | The conjunction holds of a row exactly when its text has every token |
| `BTreeScan.IndexScan` | dtdb_relational/src/transaction.rs:401-590 | Fails exactly without a primary key; otherwise returns, each once, the rows the padded range hits as the transaction sees them and the buffered rows in range, each row before every later one: at the first index column where the keys of two rows differ the smaller one comes first, a value without a key counting as the integer 0, and rows alike in all of them go by primary key; records range and reads |
| `BTreeScan.EntriesInOrder` | dtdb_relational/src/transaction.rs:550-588 | For rows with a full index key this order is the order of their index entries |
| `BTreeScan.OrderKeyPrecedes` | dtdb_relational/src/transaction.rs:550-588 | Rows sorted by the computed sort key are in this order |
| `BTreeScan.PadBounds` | dtdb_relational/src/transaction.rs:426-465 | Extends partial bounds with the column bounds and the primary key bounds |
| `BTreeScan.CollectPks` | dtdb_relational/src/transaction.rs:476-500 | Each row of the table is hit at most once |
| `BTreeScan.HitIff` | dtdb_relational/src/transaction.rs:476-500 | A stored row is hit exactly when it has an index key within the padded bounds |
| `BTreeScan.ExtrasAreBuffered` | dtdb_relational/src/transaction.rs:502-549 | The only rows beyond the range are buffered ones: the stored version was in range, or, for bounds on the leading column, a trailing index column has no key |
| `BTreeScan.FilterMakesExact` | dtdb_relational/src/transaction.rs:401-590 | For bounds on any number of leading columns, the scan with the range predicate re-applied equals filtering the overlaid table if and only if no unbuffered stored row in range falls outside the padded bounds and, under composite bounds, every buffered row in range has a stored version that the padded range hits |
| `BTreeScan.LeadingBoundsExact` | dtdb_relational/src/transaction.rs:401-590 | For bounds on the leading column alone only the first of these conditions is left |
| `BTreeScan.InsertedRowLost` | dtdb_relational/src/transaction.rs:534-546 | A row inserted by the transaction itself and looked up by both columns of an index is not returned |
| `BTreeScan.NothingMissed` | dtdb_relational/src/transaction.rs:444-465 | Rows whose index columns behind the bounds and whose primary key are within their type bounds are never missed |
| `BTreeScan.SentinelMisses` | dtdb_relational/src/schema.rs:56 | A row whose second index column continues after U+10FFFF is in range and missed |
| `BTreeScan.CompositeBoundsSkipBuffer` | dtdb_relational/src/transaction.rs:534-546 | With a composite start bound no buffered row passes the row test, whatever it holds |
| `IndexScans.Gather` | dtdb_relational/src/transaction.rs:482-549 | Fetches the hits through the transaction and adds unresolved buffered rows that pass the row test, each row once |
| `TransactionReads.Transaction.MultiGet` | dtdb_relational/src/transaction.rs:209-262 | Every key gives the buffered row, else the stored one; every key that goes to storage is in the read set |
| `TransactionReads.Transaction.RangeScan` | dtdb_relational/src/transaction.rs:281-350 | Lists in key order the rows of the overlaid table in range that pass the filter, and records range and keys |
| `TransactionReads.Transaction.Put` | dtdb_relational/src/transaction.rs:133-148 | Buffers the row under its key and nothing else |
| `TransactionReads.Transaction.Delete` | dtdb_relational/src/transaction.rs:151-165 | Buffers a tombstone under the key and nothing else |
| `TransactionReads.Transaction.Rollback` | dtdb_relational/src/transaction.rs:1144-1148 | Forgets all buffered writes |
| `ScanIterator.Iterator.Next` | dtdb_relational/src/transaction.rs:1196-1248 | Yields the least pending row and removes only it; None exactly when nothing is pending; tombstones hide stored rows |
| `ScanIterator.Drain` | dtdb_relational/src/transaction.rs:1196-1248 | Draining yields every pending row once, in key order, and publishes every key under repeatable read |
| `ScanIterator.StreamScan` | dtdb_relational/src/transaction.rs:352-397 | The streaming scan equals the scan through a sorted map, and every yielded key is covered by a recorded range or by the read set |
| `Ordered.FilteredScan` | dtdb_relational/src/database.rs:654 | The boundary contract of an engine scan: the entries in range, in key order |
| `SortOrder.KeyOrder` | dtdb_sql/src/spill.rs:104-112 | The order of sort keys, defined by numbers, lexicographic strings and bytes and the type order rather than by the comparison code, is a total preorder, NaN included, whose ties are the keys equal in every sorted column |
| `SortOrder.BeforeIsKeyBefore` | dtdb_sql/src/spill.rs:104-112 | Comparing keys says Before exactly when at the first column where they do not tie the left value is the smaller one, or the larger one where the column descends |
| `SortOrder.BeforeIsSmaller` | dtdb_sql/src/spill.rs:34-71 | Comparing values says Before exactly when the left one is smaller: by type, then by number, by magnitude with its sign for floats, or lexicographically |
| `SortOrder.SignedIsNumeric` | dtdb_sql/src/spill.rs:34-71 | Comparing sign and magnitude of two float bit patterns compares the numbers they stand for |
| `SortOrder.TypesInOrder` | dtdb_sql/src/spill.rs:34-52 | Null, booleans, integers, floats, strings, bytes, dates, times, timestamps, decimals come in this order |
| `Values.CompositesInOrder` | dtdb_storage/src/lib.rs:129-143 | Composite keys are in lexicographic order of their parts |
| `Values.KeyTypesInOrder` | dtdb_storage/src/lib.rs:129-143 | Keys of different types come in this order: integers, dates, times, timestamps, decimals, strings, booleans, composites |
| `SortOrder.KeysAreValues` | dtdb_relational/src/row.rs:140-152 | Exactly the values that are not null, floats or bytes have a key, and no two values share one |
| `SortOrder.KeysInValueOrder` | dtdb_relational/src/row.rs:140-152 | Within a type keys are ordered like their values |
| `SortOrder.TotalReverse` | dtdb_sql/src/spill.rs:53-71 | Swapping operands reverses the order of two values, and they tie exactly when stored-value equality holds, both zeros and all NaNs included |
| `SortOrder.TotalTrans` | dtdb_sql/src/spill.rs:34-71 | The order of values is transitive across types and within each type |
| `RunFiles.WriteRun` | dtdb_sql/src/spill.rs:226-253 | Writes count and framed records, failing exactly when a part reaches the 4 GiB frame limit |
| `RunFiles.FrameReadsBack` | dtdb_sql/src/spill.rs:193-222 | A frame reads back as what was written and reading stops right behind it |
| `RunFiles.RunRoundTrip` | dtdb_sql/src/spill.rs:123-153 | Opening and reading a run file gives exactly the entries it was written from, in order |
| `RunFiles.LeRoundTrip` | dtdb_sql/src/spill.rs:175-187 | Fixed-width little-endian integers read back as written |
| `RunFiles.LowByteFirst` | dtdb_sql/src/spill.rs:175-187 | The lowest byte comes first |
| `KWayMerge.Merger.Prime` | dtdb_sql/src/spill.rs:333-353 | Opens at most 64 runs with the first entry of each in the heap |
| `KWayMerge.Merger.Next` | dtdb_sql/src/spill.rs:360-378 | Yields a least remaining entry and removes exactly it; None exactly when nothing remains |
| `KWayMerge.WriteMerged` | dtdb_sql/src/spill.rs:385-423 | The intermediate file, with its count patched in place, is the run file of a sorted permutation of everything merged |
| `KWayMerge.MergePass` | dtdb_sql/src/spill.rs:314-327 | One pass merges groups of at most 64 runs, keeps all entries and leaves fewer runs |
| `KWayMerge.NewMerge` | dtdb_sql/src/spill.rs:306-330 | Cascading ends and prepares a merge that holds all entries of any number of runs |
| `KWayMerge.MergeAll` | dtdb_sql/src/spill.rs:288-423 | Merging any number of sorted runs yields a permutation of all their entries that is sorted in the order of SortOrder.KeyOrder, which is not defined by the comparison code |
| `RowCodec.ReadVarint` | dtdb_relational/src/row.rs:156-174 | Decodes the groups up to the terminator among the first ten bytes, and fails exactly when there is none |
| `RowCodec.VarintRoundTrip` | dtdb_relational/src/row.rs:156-174 | Inverts the varint encoding for every 64-bit value and leaves the rest of the buffer untouched |
| `RowCodec.ZigZagInverts` | dtdb_relational/src/row.rs:177-181 | Zigzag is a bijection between the 64-bit signed and unsigned integers |
| `RowCodec.ValueRoundTrip` | dtdb_relational/src/row.rs:48-117 | A column reads back as written, or as null when skipped, and exactly its bytes are consumed |
| `RowCodec.FromBytesProjected` | dtdb_relational/src/row.rs:38-122 | One pass decodes the projected columns and nulls the others |
| `RowCodec.ProjectedDecodeIsNulledRow` | dtdb_relational/src/row.rs:38-122 | Decoding any projection of any encoded row gives the row with the other columns nulled, whatever bytes follow |
| `Utf8.RoundTrip` | dtdb_relational/src/row.rs:72-80 | Strings survive UTF-8 encoding and strict decoding |
| `RowCodec.RowRunCodecLossless` | dtdb_sql/src/spill.rs:193-222 | Rows written to run files in the row format read back as they were, which is what the run-file and merge theorems ask of their codec |
| `RowCodec.RunOfRowsReadsBack` | dtdb_sql/src/spill.rs:123-253 | A run file of rows with 64-bit numbers and lengths, in records below 4 GiB, reads back as it was written |
| `RowCodec.RowBytes` | dtdb_relational/src/row.rs:48-104 | The bytes of one value of every kind and of a row: tags 0 to 5, zigzag and varint integers, little-endian floats, length-prefixed blocks |
| `Utf8.CharBytes` | dtdb_relational/src/row.rs:72-80 | The bytes of one character of each length |
| `RowCodec.FixedWireFaithful` | dtdb_relational/src/row.rs:105-112 | Encodings of dates, times, timestamps and decimals that meet what the row format needs exist |
| `Evolution.EveryRunKeepsIds` | dtdb_relational/src/database.rs:1797-1991 | Over any sequence of ALTERs column ids stay distinct and below the next id, never return once dropped, and keep their default |
| `Evolution.EveryChainReadsTheSame` | dtdb_relational/src/database.rs:2993-3040 | After any ALTERs a row of any stored layout reads the same whether it was rewritten through any intermediate layouts, in one step, or not at all |
| `Evolution.RewriteKeeps` | dtdb_relational/src/database.rs:2993-3040 | Moving a row to a later layout does not change what the live schema makes of it |
| `Evolution.Rewrite` | dtdb_relational/src/database.rs:2994-3037 | Rewrites by column id with target defaults; a row without a layout counts as a prefix of the target |
| `Evolution.ReconcileWithLayout` | dtdb_relational/src/schema.rs:660-670 | Places stored values by column id and leaves defaults elsewhere |
| `Evolution.ReconcileRow` | dtdb_relational/src/schema.rs:270-285 | Pads a row that is a prefix of the live columns; a full row is unchanged |
| `Evolution.EvolvingTable.AddColumn` | dtdb_relational/src/database.rs:1797-1866 | Rejects a duplicate name, a NOT NULL column without default on a non-empty table and a named group; otherwise adds the column under the next id |
| `Evolution.EvolvingTable.RenameColumn` | dtdb_relational/src/database.rs:1873-1925 | Renames unless the old name is missing or the new one is taken, keeping ids and layout |
| `Evolution.EvolvingTable.DropColumn` | dtdb_relational/src/database.rs:1932-1991 | Drops unless the column is missing, part of the primary key or indexed |
| `AlterRuns.AcceptedExactly` | dtdb_relational/src/database.rs:1797-1991 | Adding, renaming and dropping columns and creating and dropping indexes succeed exactly under their stated conditions |
| `AlterRuns.EveryRunKeepsNames` | dtdb_relational/src/database.rs:1797-1991 | Over any sequence of changes column names stay distinct |
| `AlterRuns.EveryRowReadsById` | dtdb_relational/src/schema.rs:660-670 | After any run a stored row of any layout reads under each column name as the value at the place of that column id, or as the default where layout or row lack it |
| `AlterRuns.EveryRowReadsBack` | dtdb_relational/src/schema.rs:660-670 | After any run a row written with the live schema reads back as it is |
| `AlterRuns.EveryAddReadsDefault` | dtdb_relational/src/database.rs:1797-1866 | After any run a new column reads as its default in every row stored before, whatever its layout, and every other column as it did |
| `AlterRuns.EveryRenameMoves` | dtdb_relational/src/database.rs:1873-1925 | After any run a renamed column is found under its new name only, with the values it had |
| `AlterRuns.EveryDropForgets` | dtdb_relational/src/database.rs:1932-1991 | After any run a dropped column is found no more, and the others read as they did |
| `AlterRuns.EveryRunKeepsKeyColumns` | dtdb_relational/src/database.rs:1932-1991 | No run loses a column of the primary key |
| `AlterRuns.EveryRunKeepsIndexes` | dtdb_relational/src/database.rs:1873-1991 | After any run every index column exists, and a further change leaves each index on the columns it was created on unless it drops the index |
| `QueryParser.Parser.ParseOr` | dtdb_relational/src/fts_parser.rs:111-119 | Takes from the queue exactly what the grammar takes, and fails exactly where it fails |
| `QueryParser.Parser.ParseAnd` | dtdb_relational/src/fts_parser.rs:121-140 | Takes conjuncts with or without the operator, grouping to the left |
| `QueryParser.Parser.ParsePrimary` | dtdb_relational/src/fts_parser.rs:142-168 | Takes a word, a non-empty phrase or a parenthesized query |
| `QueryGrammar.ParsesExactly` | dtdb_relational/src/fts_parser.rs:82-168 | The parser returns a tree if and only if the lexemes derive it in the grammar: OR over AND over words, phrases and parentheses, both grouping to the left, AND implied between conjuncts |
| `QueryGrammar.RenderParses` | dtdb_relational/src/fts_parser.rs:111-168 | Any query tree whose phrases are written as texts that tokenize to them parses back from any way of writing it: explicit or implied AND, needed parentheses and any extra ones, OR looser than AND, both grouping to the left |
| `QueryGrammar.ParsedQueriesParseBack` | dtdb_relational/src/fts_parser.rs:111-168 | For every tokenizer, whatever the parser accepts can be written out again in each of these styles and parses to the same tree |
| `QueryText.EveryTextIsRead` | dtdb_relational/src/fts_parser.rs:26-79 | The lexer reads a text if and only if it splits into white space, parentheses, quoted phrases and words, and gives what these pieces mean, each word all its tokens |
| `QueryText.EveryTextParsesExactly` | dtdb_relational/src/fts_parser.rs:26-168 | For every text and tree: parsing the text returns the tree if and only if the text stands for it |
| `QueryText.WrittenParses` | dtdb_relational/src/fts_parser.rs:26-168 | Every tree that can be written has a text, its lexemes with spaces between them, that parses to it |
| `QueryText.LexReadsText` | dtdb_relational/src/fts_parser.rs:26-79 | Lexing the spelling of lexemes, a space after each, gives the lexemes back when each word is its own only token and no phrase holds a quote |
| `QueryText.TextParses` | dtdb_relational/src/fts_parser.rs:26-168 | From tree to text and back: parsing the written text returns the tree |
| `QueryGrammar.ParsedQueriesHaveWords` | dtdb_relational/src/fts_parser.rs:145-158 | No parsed query holds an empty phrase, so index and row evaluation agree on it |
| `QueryParser.LexQuery` | dtdb_relational/src/fts_parser.rs:26-79 | The lexer loop yields the lexemes of the text |
| `QueryParser.LexFailsOnOddQuotes` | dtdb_relational/src/fts_parser.rs:40-57 | Lexing fails exactly when the text has an odd number of double quotes |
| `QueryText.Parse` | dtdb_relational/src/fts_parser.rs:26-94 | Returns a tree the text stands for, without empty phrases, and fails exactly when the text stands for none |
| `LikePlan.PlanLike` | dtdb_relational/src/tokenizer.rs:78-99 | Returns the tokens of the literal runs, sorted and each once, or None when no run has three characters |
| `LikePlan.PlanIsSound` | dtdb_relational/src/tokenizer.rs:66-99 | With lowercasing that treats the capital sigma by its context, every required token is a trigram of every string that matches the pattern, for every pattern with no sigma whose form a wildcard leaves open |
| `LikePlan.FormKeptExactly` | dtdb_relational/src/tokenizer.rs:66-76 | Wherever its run is matched a sigma is lowered as in the run alone, if and only if no wildcard hides the character that decides its form |
| `LikePlan.SoundExactly` | dtdb_relational/src/tokenizer.rs:66-99 | For patterns with one sigma the planned tokens are necessary for every match if and only if its form is not left open in a run that yields tokens |
| `LikePlan.NoSigmaIsSettled` | dtdb_relational/src/tokenizer.rs:66-76 | Patterns without a capital sigma meet the condition, whatever the character tables |
| `LikePlan.LikeScanIsFullScan` | dtdb_relational/src/transaction.rs:632-657 | Under that condition token intersection with the pattern re-checked equals a full scan with the pattern, under any write buffer |
| `LikePlan.ContextDropsMatch` | dtdb_relational/src/tokenizer.rs:66-76 | The shortest loss: a capital sigma at the end of a run before a wildcard |
| `TransactionRpc.EveryStreamSettlesOnce` | dtdb_api/src/server.rs:592-930 | Whatever requests a client sends, in whatever order, each up to the end of the stream gets the reply its place calls for (a query that is answered gets exactly the rows of its answer in order, or its error, and one end marker; a commit its result; anything out of place one refusal), and begins, commits and rollbacks happen exactly as often as requests and answers say |
| `TransactionRpc.Session.Serve` | dtdb_api/src/server.rs:592-930 | The stream loop leaves the state and sends the replies of which that theorem speaks |
| `TransactionRpc.EveryCallGetsItsAnswer` | dtdb_api/src/remote.rs:187-330 | In every interleaving the server takes the commands in the order they were sent, and result number i that the client hands to its caller is what the database answered to its i-th query, all rows in order or the error |
| `TransactionRpc.EveryCommitIsReported` | dtdb_api/src/remote.rs:187-271 | Once the client is through after a commit it reports success exactly when the database answered that command with a commit |
| `TransactionRpc.FinishedIsFinal` | dtdb_api/src/server.rs:592-930 | A finished stream refuses every further request with one error and changes nothing |
| `TransactionRpc.EveryRunIsLockstep` | dtdb_api/src/remote.rs:187-271 | In every interleaving the client never meets an answer it does not foresee, and whenever it is free to send nothing is unread and the server has an open transaction |
| `TransactionRpc.NoRunIsStuck` | dtdb_api/src/remote.rs:187-271 | In every interleaving a free client may call or finish, a waiting one is about to receive or the server to deliver or to take its command with any answer, and a client that is through leaves no open transaction but one whose last command is still to be taken |
| `TransactionRpc.EveryRunCommitsOnce` | dtdb_api/src/server.rs:861-926 | A transaction is committed at most once, only after the one Commit command and never also rolled back; the client reports success exactly when it was committed |
| `TransactionRpc.CollectAnswer` | dtdb_api/src/remote.rs:283-330 | Reads exactly one answer off the stream: all results up to the marker, or the error and the marker behind it; on whatever the server may send for an answer it returns that answer and leaves what follows |
| `Statistics.Analyze` | dtdb_relational/src/database.rs:2878-2927 | Counts every prefix and keeps the 256 most common ones |
| `Statistics.BoundHolds` | dtdb_relational/src/database.rs:1025-1037 | The bound is never below the true posting length and exact for retained prefixes |
| `Statistics.PostingLengthIsRows` | dtdb_relational/src/database.rs:2878-2927 | In the index of a table the posting length of a prefix is the number of rows that have it |
| `Statistics.AverageIsCeiling` | dtdb_relational/src/database.rs:1025-1037 | The average used for other prefixes is the entry count over the unique values, rounded up |
| `Statistics.StatisticsDeterministic` | dtdb_relational/src/database.rs:2900-2917 | The retained list depends only on the index contents, not on the order in which prefixes were counted |
| `Statistics.KeepMostCommon` | dtdb_relational/src/database.rs:2905-2917 | The list is ranked by count and then prefix, capped, and nothing left out precedes anything kept |

## Left out

- ReadUncommitted and ReadCommitted: they never register, so no theorem about conflicts covers them.
- SerialRuns.EveryRunIsSerializable: is stated for runs whose prunes are harmless, because LateLoad.LateLoadBreaksSerializability shows it false otherwise; SerialRuns.RunSafeExactly has the exact condition for keeping the history.
- SerialRuns.EveryRunPrunesSafely: the same.
- SerialSteps.EveryReadIsSerial: the same.
- SerialSteps.EveryCheckedReadIsSerial: the same.
- SerialSteps.EveryWriteIsKept: the same.
- ExactChecks.EveryCheckIsExact: the same.
- Pruning.EveryHistoryIsExact: the same.
- Progress.EveryClearCommitFinishes: the same.
- Progress.EveryWriterFinishes: the same.
- SerialRuns.EveryRunKeepsEnginesInStep: the same.
- SerialRuns.EveryRunValidatesOnce: the same.
- RepeatableRead scans: they track keys but no ranges, so such a transaction takes the modelled steps with its scans unrecorded, and nothing is claimed about them.
- TransactionReads.Transaction.Put: the checks of row and key before buffering are not modelled.
- AlterRuns.AcceptedExactly: the column type checks of full-text indexes are not modelled.
- Column projection in scans: every scan here reads all columns; only row decoding is projected.
- I/O errors inside a commit and partially failed applies: the commit closure succeeds.
- Column drops inside a log epoch and ALTER on tables with several groups: outside the recovery and evolution theorems.
- Memtables, write-ahead log, sorted tables and compaction: the storage engine is the boundary.
- SQL planning, operators and expressions, FFI, command lines, authentication, executors and locks as such.
- TableWrites.BuildBatches: the entries have distinct primary keys, as a write buffer keyed by primary key gives them.
- TableStore.Store.WriteBatch: the entries have distinct primary keys, for the same reason.
- FullText.EvalQuery: needs an inverted index, which FullText.ImageInverted shows every full-text index to be.
- TextScan.FullTextScan: needs the index of the stored rows, which SerialRuns.EveryRunKeepsEnginesInStep gives.
- Evolution.ReconcileWithLayout: needs distinct column ids, which Evolution.EveryRunKeepsIds gives.
- GroupScan.GroupsInvisible: needs distinct column names and ids, and all groups of the table.
- FullText.EvalQuery: positions are unbounded, while the source keeps them in 32 bits.
- Evolution.EvolvingTable.AddColumn: column ids are unbounded, while the source keeps them in 32 bits.
- BTreeScan.IndexScan: needs the index of the stored rows and bounds over equally many columns; a returned row carries its primary key, while the source extracts it again from the row.
- LikePlan.SoundExactly: is stated for patterns with one capital sigma; with several, a token that one of them loses may occur elsewhere in the match, so LikePlan.PlanIsSound is sufficient only.
- IndexCreation.CreatedIndexStarts: versions count from zero again after the creation, with no transaction registered.
- KWayMerge.Merger.Next: the heap is a bag with one entry per run, so which of several equal entries comes first is not claimed.
- KWayMerge.MergeAll: payloads are rows, while the source is generic in the payload; run files are values, so deleting them is not modelled.
- RowCodec.FromBytesProjected: the shift into a 64-bit word is written as addition of disjoint bits.
- Statistics.KeepMostCommon: selects entry by entry, while the source partitions, truncates and sorts.
- Statistics.BoundHolds: the average is an exact rounded-up quotient, while the source divides doubles.
- TransactionRpc.EveryRunIsLockstep: worker panics and transport errors are not steps.
- GroupScan.StreamTable: stored values are rows; the two scans of the source differ on values that are not bytes.
- Auto-increment counters, query interpolation and background gates: they would only add easy members.
