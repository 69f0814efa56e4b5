# Data-plane migration scripts: a verified model

This project models in Dafny the deterministic logic of three Node.js scripts.
The scripts copy data between two cloud storage and search accounts:

- `data_plane/migrate-tables.js` reads table names from a schema file and removes repeats. It copies each table's entities in batches of 100. It runs the tables in chunks of `maxConcurrency`, turns each table's error into a `failed` result and tallies successes, failures and entities.
- `data_plane/migrate-blobs.js` reads a CSV manifest with a hand-written quote-toggle field splitter. It keeps the rows that name a real entity and container, and removes repeated entity names with the first row winning. It copies each `<entity>.json` blob into the lower-cased container, skipping blobs the destination already holds. Each blob is sorted into successful, skipped or failed.
- `data_plane/search-service-data-plane.js` strips read-only properties from search artifacts. It strips run state from indexers and deletes `queryTimeout` from their nested configuration. It overrides each data source's connection string and migrates data sources, indexes, skillsets and indexers in that order, stopping at the first failure.

Module layout:

| file | module | models |
|---|---|---|
| `wrappers.dfy` | `Wrappers` | `Option` (JavaScript `undefined`/`null`), `Result` (a thrown error) |
| `sequences.dfy` | `Chunking`, `Dedup` | `slice`-based chunking; keep-first deduplication through a `Set` of seen keys |
| `text.dfy` | `Text` | `String.prototype.trim`, `toLowerCase` (ASCII), `split`/`join` on one character |
| `tables.dfy` | `Tables` | migrate-tables.js |
| `blob_manifest.dfy` | `BlobManifest` | `readAthenaTableData` and `parseCSVLine` in migrate-blobs.js |
| `blob_copy.dfy` | `BlobCopy` | `copyBlobFile` and the tally loop of `main` in migrate-blobs.js |
| `search.dfy` | `Search` | search-service-data-plane.js |

Service calls are oracles given as parameters:

- Table copies, per-entity upserts, blob existence checks, copies and property reads, and the search service's `createOrUpdate*` calls are parameters. A function says which calls throw and with what.
- Storage accounts are values: a set of containers and a map from (container, blob name) to size.
- A destination table is a map from entity key to entity.
- JavaScript objects are a `JsonObject` class. Its `props` map is updated in place, and nested objects are shared references. This lets the model show that `deepCleanDataSourceProperties` changes the nested `configuration` object of the artifact it was given.

`Promise.allSettled` returns its results in input order, so the model records each chunk's table results in table order.
The upserts of one batch run concurrently in the source; the model applies them in list order.
The order matters only when two entities of a batch share a key, and `Tables.UpsertAllDistinct` proves that without such a pair every entity's row is the same whatever the order.
A failed async copy may leave a partial destination blob behind; the model lets the fault oracle say which partial blob, if any, is left, and proves that such a blob is then skipped on every later run whose checks for it (the containers, the source blob, the existence and property reads) pass, whatever the rest of that run's service calls do.

## Model

| member | source | states |
|---|---|---|
| `Chunking.ChunksAreBatching` | data_plane/migrate-tables.js:228-229 | the slices `xs.slice(i, i+n)` for i = 0, n, 2n, … concatenate back to `xs` in order; every slice but the last has exactly n elements, and the last has between 1 and n |
| `Chunking.BatchingIsChunks` | data_plane/migrate-tables.js:102-116 | any cutting of a list into size-n batches with a last batch of 1..n is exactly the `slice` chunking (the batching is unique) |
| `Chunking.ChunksCount` | data_plane/migrate-tables.js:230 | there are ceil(\|xs\|/n) chunks: \|xs\| <= count·n < \|xs\| + n |
| `Chunking.Chunks` | data_plane/migrate-tables.js:228-229 | the `slice` chunking: every chunk holds between 1 and n elements, and there are no more chunks than elements |
| `Dedup.DedupBy` | data_plane/migrate-tables.js:12-19 | keep-first deduplication through a set of seen keys: the result is no longer than the input and holds only input elements |
| `Dedup.DedupBySnoc` | data_plane/migrate-tables.js:13-17 | one more element is kept exactly when its key has not occurred before, and the keys seen grow by its key |
| `Dedup.DedupByKeepsEveryKey` | data_plane/migrate-tables.js:12-19 | deduplication loses no key: a key occurs in the output iff it occurs in the input |
| `Dedup.DedupByKeepsFirst` | data_plane/migrate-blobs.js:45-58 | every kept element is the first input element with its key, payload included |
| `Dedup.DedupByKeepsOrder` | data_plane/migrate-tables.js:19 | kept elements appear in the order of their keys' first occurrences |
| `Dedup.DedupByKeysDistinct` | data_plane/migrate-blobs.js:52-53 | no two kept elements share a key |
| `Text.Trim` | data_plane/migrate-blobs.js:24 | `trim()` never lengthens its input, and the result is empty or neither starts nor ends with white space |
| `Text.TrimIsSlice` | data_plane/migrate-blobs.js:24 | the trimmed text is the slice of the input after its leading white space, and everything cut on either side is white space |
| `Text.TrimIdempotent` | data_plane/migrate-blobs.js:49-50 | trimming an already trimmed field changes nothing |
| `Text.TrimEmptyIffBlank` | data_plane/migrate-blobs.js:8 | a line trims to "" exactly when it is all white space |
| `Text.ToLower` | data_plane/migrate-blobs.js:69 | `toLowerCase` keeps the length of the name |
| `Text.ToLowerNormalises` | data_plane/migrate-blobs.js:69 | a lower-cased name has no capital letter, and lower-casing it again changes nothing |
| `Text.Split` | data_plane/migrate-blobs.js:8 | `split` gives at least one piece and no piece holds the separator |
| `Text.JoinSplit` | data_plane/migrate-blobs.js:8 | joining the pieces of a split with the separator gives back the text |
| `Text.SplitJoin` | data_plane/migrate-blobs.js:8 | splitting a join of separator-free pieces gives back the pieces |
| `Tables.TableNamesAreTheTruthyNames` | data_plane/migrate-tables.js:13-17 | a name is collected iff some schema item has it as a present, non-empty `TableName` |
| `Tables.TableNames` | data_plane/migrate-tables.js:13-17 | the truthy `TableName`s of the schema, in schema order: no more than there are items, and none empty |
| `Tables.GetUniqueTableNames` | data_plane/migrate-tables.js:12-19 | the result holds each truthy `TableName` exactly once, nothing else, in order of first occurrence |
| `Tables.UniqueTableNamesInFirstOccurrenceOrder` | data_plane/migrate-tables.js:19 | a name that comes earlier in the result first occurs earlier in the schema |
| `Tables.UpsertAll` | data_plane/migrate-tables.js:124-133 | upserting a batch never removes a row of the destination table |
| `Tables.UpsertAllDistinct` | data_plane/migrate-tables.js:124-133 | when no two entities of a batch share a key, each successfully upserted entity is exactly its key's row afterwards, and every key no successful upsert names keeps its old row or stays absent, whatever order the concurrent upserts finish in |
| `Tables.UpsertAllAppend` | data_plane/migrate-tables.js:124-134 | upserting two batches in turn equals upserting their concatenation, so cutting into batches does not change the destination |
| `Tables.UpsertAllKeepsUntouchedRows` | data_plane/migrate-tables.js:127-131 | a key that no successful upsert writes keeps its old row or stays absent; failed upserts change nothing |
| `Tables.UpsertAllLastWriteWins` | data_plane/migrate-tables.js:128 | after `upsertEntity(entity, 'Replace')`, a key holds the last entity with that key whose upsert succeeded |
| `Tables.CopyTableData` | data_plane/migrate-tables.js:68-116 | a failing source probe, or a failing table creation other than 409, ends the copy with that error before any batch; otherwise the count is the number of enumerated entities even if upserts fail, the batches are the size-100 chunking of the entities in order, and the destination is every entity upserted in order |
| `Tables.CopyEntities` | data_plane/migrate-tables.js:95-121 | the enumeration loop counts every entity, flushes the batch at 100 and once more at the end, so the batches are the size-100 chunking of the entities; the destination is every entity upserted in order |
| `Tables.ResultsOf` | data_plane/migrate-tables.js:198-225 | a chunk settles into exactly one result per table, in chunk order |
| `Tables.Record` | data_plane/migrate-tables.js:234-266 | each settled result adds exactly one to successCount + failCount |
| `Tables.Tally` | data_plane/migrate-tables.js:234-266 | after `results.forEach`, successCount + failCount equals the number of results |
| `Tables.TallyCounts` | data_plane/migrate-tables.js:234-266 | successCount + failCount equals the number of results, and each count is the length of its list |
| `Tables.TallyTotalIsSumOfSuccesses` | data_plane/migrate-tables.js:235-244 | `totalEntities` is the sum of the successful tables' entity counts; failed tables add nothing |
| `Tables.TallyAppend` | data_plane/migrate-tables.js:228-267 | tallying a list split into parts, part after part, gives the tally of the whole list, with both table lists in enumeration order |
| `Tables.RecordChunk` | data_plane/migrate-tables.js:234-266 | recording a chunk's settled results one by one extends the tally of the earlier results by the chunk's results |
| `Tables.MigrateTables` | data_plane/migrate-tables.js:228-267 | with maxConcurrency >= 1 the chunks are the `slice` chunking of the tables; the summary is the tally of one result per table in table order, so it does not depend on maxConcurrency; success and failure counts add up to the number of tables; `totalEntities` sums the successes only |
| `BlobManifest.ScanInvariant` | data_plane/migrate-blobs.js:14-32 | after any prefix, `inQuotes` is the parity of quotes read, one field was pushed per comma outside quotes, no field holds a quote, and the fields joined by commas are the prefix without its quotes |
| `BlobManifest.ScanChar` | data_plane/migrate-blobs.js:19-31 | one character step: `inQuotes` flips exactly on a quote; exactly a comma outside quotes pushes a field; no quote ever enters the current field |
| `BlobManifest.Scan` | data_plane/migrate-blobs.js:19-31 | after the character loop the pending field holds no double quote |
| `BlobManifest.RawFields` | data_plane/migrate-blobs.js:19-31 | the loop's fields plus the final push: a line always yields at least one field |
| `BlobManifest.ScanInsideQuotes` | data_plane/migrate-blobs.js:21-28 | after an opening quote, every character up to the next quote (commas included) is appended to the current field, and no field is pushed |
| `BlobManifest.QuotedSectionStaysInField` | data_plane/migrate-blobs.js:21-28 | a quoted section, read outside quotes, adds its text (commas included) to the current field and leaves the pushed fields and the quote state as they were |
| `BlobManifest.ParseLineCount` | data_plane/migrate-blobs.js:19-31 | `parseCSVLine` returns one field per comma outside quotes, plus one |
| `BlobManifest.ParseLineKeepsQuotedCommas` | data_plane/migrate-blobs.js:21-28 | no character is lost but the quotes: the untrimmed fields joined by commas are the line with only its quotes removed, and the parsed fields are those fields trimmed |
| `BlobManifest.ParseLineFieldsAreClean` | data_plane/migrate-blobs.js:21-30 | no returned field holds a double quote, and every field is already trimmed |
| `BlobManifest.ParseLineProperties` | data_plane/migrate-blobs.js:14-32 | field count, quote-freeness and trimmedness of all fields together |
| `BlobManifest.ParseCsvLine` | data_plane/migrate-blobs.js:14-32 | the character loop returns the scanner's fields, trimmed; there are (commas outside quotes) + 1 of them and none holds a quote |
| `BlobManifest.NonBlank` | data_plane/migrate-blobs.js:8 | the kept lines are no more than the input lines, and none of them trims to "" |
| `BlobManifest.NonBlankKeepsNonBlankLines` | data_plane/migrate-blobs.js:8 | a line is kept iff it is in the input and not blank |
| `BlobManifest.FindIndexFinds` | data_plane/migrate-blobs.js:35-36 | `findIndex` gives -1 iff the header is absent, and otherwise the position of its first occurrence |
| `BlobManifest.FindIndex` | data_plane/migrate-blobs.js:35-36 | the result is -1 or a header position, and a found position holds the name |
| `BlobManifest.SelectRow` | data_plane/migrate-blobs.js:48-52 | a data row is parsed and passes the row filter exactly as the specification function says |
| `BlobManifest.SelectMigrations` | data_plane/migrate-blobs.js:44-59 | the data-row loop with its `seen` set returns the filtered rows deduplicated on entity name |
| `BlobManifest.Selection` | data_plane/migrate-blobs.js:44-59 | the data-row loop selects fewer migrations than there are lines, since the header row is never one |
| `BlobManifest.SelectionPassesFilter` | data_plane/migrate-blobs.js:52 | every selected migration has a non-empty entity name and container, a container other than 'ATS' and an entity name other than 'NA' |
| `BlobManifest.ReadAthenaTableData` | data_plane/migrate-blobs.js:5-64 | from the file text: fewer than two non-blank lines is the "empty" error; a header without either required column is the "columns" error; otherwise the selection |
| `BlobManifest.ManifestOfLines` | data_plane/migrate-blobs.js:10-40 | it fails only with the "empty" or the "columns" message, and loads only from at least two lines whose header names both `AthenaDbEntityName` and `Container` |
| `BlobManifest.ManifestIsSelection` | data_plane/migrate-blobs.js:35-59 | a loaded manifest found both columns and is the requested data rows deduplicated on entity name |
| `BlobManifest.ManifestErrors` | data_plane/migrate-blobs.js:10-40 | the "empty" error happens iff there are fewer than two non-blank lines; the "columns" error happens iff there are enough lines but the header lacks `AthenaDbEntityName` or `Container`; a loaded manifest names each entity at most once |
| `BlobManifest.HeaderCheckedBeforeRows` | data_plane/migrate-blobs.js:34-40 | a header missing a column fails whatever the data rows hold |
| `BlobManifest.RequestedAreSelectable` | data_plane/migrate-blobs.js:52 | every selected row has a non-empty entity name and container, a container other than 'ATS' and an entity name other than 'NA', and comes from some data row |
| `BlobManifest.SelectableAreRequested` | data_plane/migrate-blobs.js:47-58 | every data row that passes the filter is requested |
| `BlobManifest.ManifestSelection` | data_plane/migrate-blobs.js:45-58 | every loaded migration passes the filter and is the first requested row for its entity name, container included |
| `BlobManifest.ManifestKeepsEveryEntity` | data_plane/migrate-blobs.js:47-58 | every entity name a passing data row selects appears in the loaded manifest |
| `BlobManifest.KeptInSelection` | data_plane/migrate-blobs.js:47-58 | a data row that passes the filter has its entity name in the deduplicated selection |
| `BlobCopy.SkipLeavesDestination` | data_plane/migrate-blobs.js:125-132 | a skipped blob was already in the destination, is reported with the destination's size, and the destination is unchanged (no copy issued) |
| `BlobCopy.CopyBlobFile` | data_plane/migrate-blobs.js:66-150 | the destination only grows (no container or blob is removed or resized), containers grow at most by the lower-cased container, and success needs the source blob to exist |
| `BlobCopy.CopyAddsOnlyTheBlob` | data_plane/migrate-blobs.js:123-149 | the destination's blobs change only by adding the one missing blob with the source's size; containers grow at most by the lower-cased container; a non-skipped success happens iff the blob was absent in the destination, present in the source and copied |
| `BlobCopy.AbortedCopyIsSkippedForGood` | data_plane/migrate-blobs.js:125-149 | a copy that throws after the destination blob was created reports a failure yet leaves the partial blob; a later attempt whose checks pass, under any service behaviour, skips that blob, reports the partial size and changes nothing |
| `BlobCopy.CopyKeepsWellFormed` | data_plane/migrate-blobs.js:92-106 | the destination container is created before a blob is copied into it |
| `BlobCopy.ContainerCaseIgnored` | data_plane/migrate-blobs.js:69 | two container names equal once lower-cased give the same outcome and destination |
| `BlobCopy.Record` | data_plane/migrate-blobs.js:206-232 | each outcome adds exactly one to successful + skipped + failed |
| `BlobCopy.RunStep` | data_plane/migrate-blobs.js:192-233 | one iteration of the main loop only grows the destination |
| `BlobCopy.Run` | data_plane/migrate-blobs.js:192-233 | the main loop puts every blob in exactly one of the three lists, and the destination only grows |
| `BlobCopy.RunCounts` | data_plane/migrate-blobs.js:192-233 | every blob lands in exactly one list, so the three counts sum to the number of blobs; counts equal list lengths; `totalBlobsSize` sums only the copied (non-skipped) sizes |
| `BlobCopy.MigrateBlobs` | data_plane/migrate-blobs.js:192-233 | the loop's report and destination are the sequential run's, and the report is consistent and complete |
| `BlobCopy.RerunIsQuiet` | data_plane/migrate-blobs.js:125-132 | over a destination that already holds what each blob's handling would put there under the same service behaviour, a run copies nothing and changes nothing |
| `BlobCopy.RerunCopiesNothing` | data_plane/migrate-blobs.js:125-132 | when every service call behaves as in the first run, running the manifest again against the destination that run left behind copies nothing, leaves the destination unchanged, and every blob is skipped or fails |
| `BlobCopy.RerunSkipsCompleted` | data_plane/migrate-blobs.js:126-131 | a blob copied or skipped by a run is skipped, and reported with the same size, on any re-run whose checks for that blob pass, even when the re-run's other service calls fail or succeed differently |
| `BlobCopy.RerunSkipsLeftBlobs` | data_plane/migrate-blobs.js:125-149 | every blob whose copy was started and left a destination blob (copied or aborted part-way) is skipped on any re-run whose checks for that blob pass, even when the re-run's other service calls behave differently |
| `Search.Strip` | data_plane/search-service-data-plane.js:118-119 | deleting keys leaves exactly the other keys, each with its value |
| `Search.StripTwice` | data_plane/search-service-data-plane.js:243-247 | the indexer deletions after `cleanReadOnlyProperties` delete exactly the union of both key sets |
| `Search.CleanReadOnlyProperties` | data_plane/search-service-data-plane.js:115-122 | a fresh copy without `@odata.etag` and `@odata.context`, every other key with its value; the argument is not modified |
| `Search.DeepCleanDataSourceProperties` | data_plane/search-service-data-plane.js:124-134 | null comes back unchanged; otherwise a fresh copy equal to the input, and `queryTimeout` is deleted from the `parameters.configuration` object the copy shares with the input (only when both are objects); nothing else changes |
| `Search.StripKeepsConfiguration` | data_plane/search-service-data-plane.js:127-130 | a stripped copy shares `parameters` and its `configuration` with the original |
| `Search.CleanIndexer` | data_plane/search-service-data-plane.js:243-249 | an indexer is sent without the read-only keys and `lastResult`, `executionHistory`, `status`, and nothing else; its shared configuration loses `queryTimeout` |
| `Search.CleanSharedIndexer` | data_plane/search-service-data-plane.js:240-249 | when earlier indexers share a configuration object, the body sent still equals the cleaned original apart from `queryTimeout`, and every configuration object handled so far has lost exactly `queryTimeout` |
| `Search.SearchMigration.GetStorageConnectionString` | data_plane/search-service-data-plane.js:106-113 | fails with the "not initialized" message iff the string is missing or empty; otherwise returns it |
| `Search.SearchMigration.UpdateDataSourceConnectionString` | data_plane/search-service-data-plane.js:136-144 | sets only `connectionString` to the stored string, or fails and leaves the argument alone |
| `Search.SearchMigration.MigrateDataSources` | data_plane/search-service-data-plane.js:146-174 | data sources are sent in order, each only after the previous one was accepted; each body is the cleaned data source with the storage connection string; the loop succeeds iff all were sent and accepted, and otherwise fails with the first rejection or the missing-string error |
| `Search.SearchMigration.MigrateCleanedArtifacts` | data_plane/search-service-data-plane.js:176-230 | indexes and skillsets are sent in order without read-only keys, each only after the previous one was accepted, and the loop fails fast with the first rejection |
| `Search.SearchMigration.MigrateIndexers` | data_plane/search-service-data-plane.js:232-262 | indexers are sent in order, cleaned, failing fast; shared configuration objects lose at most `queryTimeout`, and on success every indexer's configuration has lost it |
| `Search.SearchMigration.MigrateSearchConfiguration` | data_plane/search-service-data-plane.js:264-282 | data sources, indexes, skillsets, indexers in that order; a phase sends anything only once every earlier phase completed; the run succeeds iff all four completed, and otherwise fails with the error of the first incomplete phase |

## Left out

- Service clients and their calls (`TableClient`, `TableServiceClient`, `BlobServiceClient`, the search clients, `StorageManagementClient`, `SecretClient`, `beginCopyFromURL` and its poller) are oracles passed as parameters.
- `ensureStorageAccountExists`, `initializeSearchClients` and `verifyMigration` are not part of this model. They are remote calls and logging only.
- Reading the schema and CSV files, `JSON.parse`, environment variables, dotenv, credentials and the report files are not modelled. The model starts from the parsed schema items and from the CSV text.
- Console output and progress lines are not modelled.
- Durations, throughput, KB/MB formatting and `toFixed` are not modelled, because they need clocks and floating point. `totalDuration` and the per-unit `duration` fields are dropped from the reports.
- Real concurrency in `Promise.allSettled` is not modelled. Each chunk's results are produced and recorded in input order, which is the order `allSettled` returns.
- Tables.UpsertAll: the upserts of a batch (migrate-tables.js:124-133) run concurrently, and the model applies them one after the other in list order. When two entities of one batch share a partition and row key, the source's final row depends on which request the service finishes last; the model picks the later one in the list. `Tables.UpsertAllDistinct` covers batches with distinct keys, where the order makes no difference.
- Tables.CopyTableData: a source error is modelled as a `ServiceError` cause. The rewording of `TableNotFound` and `AuthorizationPermissionMismatch` messages (migrate-tables.js:73-79) and the reason lines printed in `main` (252-258) are not modelled, because they depend on upstream message wording.
- Tables.CopyTableData: an error thrown by the entity enumeration part-way through, after some batches were upserted, is not modelled. The entity list is given as a whole.
- Tables.MigrateTables: `copyTable` is an abstract oracle that returns an entity count or an error message. It is not tied to `CopyTableData`'s own result.
- Tables.MigrateTables: requires maxConcurrency >= 1. `parseInt` of the environment value (migrate-tables.js:152) can give 0, NaN or a negative number. With 0 or a negative value and at least one table, the loop at migrate-tables.js:228 never terminates. With NaN it runs once over `tables.slice(0, NaN)`, which is empty, and `i += NaN` then ends it: no table is migrated and the report is all zeros.
- Tables.GetUniqueTableNames: a schema item's `TableName` is taken to be a string or absent. The source's truthiness test (migrate-tables.js:14-15) also collects numbers, objects and other truthy values, which the model cannot hold.
- Text.ToLower: models `toLowerCase` on ASCII letters only. Unicode case mapping is not modelled.
- BlobCopy.CopyBlobFile: the destination container's `exists()` and `create()` are one call that may fail. A 409 from either is taken to mean that the container exists.
- BlobCopy.CopyBlobFile: a thrown error whose `message` is undefined would make `error.message.includes` throw in the source. The model treats every error as having a message.
- Search.DeepCleanDataSourceProperties: `parameters` and `configuration` count as present only when they are JSON objects. A truthy primitive there makes the source's `delete` a no-op, and arrays are not looked into.
- Search.SearchMigration.MigrateSearchConfiguration: the `list*` calls that fetch the artifacts are not modelled. The artifacts are given as inputs, so a failing list call is not modelled.
- BlobCopy.RerunCopiesNothing: the same fault oracle answers both runs, so every service call fails or succeeds on the re-run exactly as on the first. A blob that failed on a transient error and is copied on the re-run is outside this lemma; `BlobCopy.RerunSkipsCompleted` and `BlobCopy.RerunSkipsLeftBlobs` take a second oracle and need only the re-run's checks for their blob to pass.
- Exit status: the table and blob scripts exit non-zero only when their orchestration throws (a manifest or configuration error), not when individual units fail. The model follows the code here.
