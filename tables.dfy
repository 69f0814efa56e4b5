/** The deterministic part of data_plane/migrate-tables.js: choosing the tables,
    copying one table's entities in batches of 100, and running the tables in
    chunks of `maxConcurrency` while tallying each table's outcome. */
module Tables {
  import opened Wrappers
  import opened Chunking
  import opened Dedup

  // ---------------------------------------------------------------- table names

  /** One record of the schema file; its `TableName` may be missing. */
  datatype SchemaItem = SchemaItem(tableName: Option<string>)

  /** `item.TableName` is truthy: present and not the empty string. */
  predicate HasTableName(item: SchemaItem)
  {
    item.tableName.Some? && item.tableName.value != ""
  }

  /** The truthy table names of the schema in file order, repeats included. */
  function TableNames(schema: seq<SchemaItem>): (names: seq<string>)
    ensures |names| <= |schema|
    ensures forall i :: 0 <= i < |names| ==> names[i] != ""
  {
    if schema == [] then []
    else
      var item := schema[|schema| - 1];
      TableNames(schema[..|schema| - 1]) + (if HasTableName(item) then [item.tableName.value] else [])
  }

  /** A string is listed by `TableNames` exactly when some schema item carries it as
      a truthy `TableName`. */
  lemma {:induction false} TableNamesAreTheTruthyNames(schema: seq<SchemaItem>, name: string)
    ensures name in TableNames(schema) <==>
      exists i :: 0 <= i < |schema| && HasTableName(schema[i]) && schema[i].tableName.value == name
  {
    if schema != [] {
      var init := schema[..|schema| - 1];
      TableNamesAreTheTruthyNames(init, name);
      assert forall i :: 0 <= i < |init| ==> init[i] == schema[i];
    }
  }

  /** `getUniqueTableNames` after the file is read and parsed: every truthy
      `TableName` is added to a `Set`, whose insertion order `Array.from` returns. */
  method GetUniqueTableNames(schema: seq<SchemaItem>) returns (tables: seq<string>)
    ensures tables == DedupBy(TableNames(schema), Identity)
    ensures forall m, n :: 0 <= m < n < |tables| ==> tables[m] != tables[n]
    ensures forall name :: name in tables <==>
      exists i :: 0 <= i < |schema| && HasTableName(schema[i]) && schema[i].tableName.value == name
  {
    // a JavaScript Set, as the sequence of its members in insertion order
    var tableNamesSet: seq<string> := [];
    for i := 0 to |schema|
      invariant tableNamesSet == DedupBy(TableNames(schema[..i]), Identity)
    {
      var item := schema[i];
      UniqueNamesStep(schema, i, tableNamesSet);
      if item.tableName.Some? && item.tableName.value != "" {
        var name := item.tableName.value;
        if name !in tableNamesSet {
          tableNamesSet := tableNamesSet + [name];
        }
      }
    }
    assert schema[..|schema|] == schema;
    tables := tableNamesSet;
    forall m, n | 0 <= m < n < |tables|
      ensures tables[m] != tables[n]
    {
      DedupByKeysDistinct(TableNames(schema), Identity, m, n);
    }
    forall name
      ensures name in tables <==>
        exists i :: 0 <= i < |schema| && HasTableName(schema[i]) && schema[i].tableName.value == name
    {
      var names := TableNames(schema);
      DedupByKeepsEveryKey(names, Identity, name);
      OccursIffIn(names, name);
      OccursIffIn(tables, name);
      TableNamesAreTheTruthyNames(schema, name);
    }
  }

  /** One more schema item adds its table name to the set, unless it has none or
      the set already holds it. */
  lemma UniqueNamesStep(schema: seq<SchemaItem>, i: nat, seen: seq<string>)
    requires i < |schema| && seen == DedupBy(TableNames(schema[..i]), Identity)
    ensures var item := schema[i];
      DedupBy(TableNames(schema[..i + 1]), Identity)
        == if item.tableName.Some? && item.tableName.value != "" && item.tableName.value !in seen
           then seen + [item.tableName.value] else seen
  {
    var item := schema[i];
    var names := TableNames(schema[..i]);
    assert schema[..i + 1][..i] == schema[..i] && schema[..i + 1][i] == item;
    if item.tableName.Some? && item.tableName.value != "" {
      var name := item.tableName.value;
      assert TableNames(schema[..i + 1]) == names + [name];
      DedupBySnoc(names, Identity, name);
      DedupByKeepsEveryKey(names, Identity, name);
      OccursIffIn(seen, name);
    } else {
      assert TableNames(schema[..i + 1]) == names + [];
      assert names + [] == names;
    }
  }

  /** The unique names come in the order in which each name first occurs in the schema. */
  lemma UniqueTableNamesInFirstOccurrenceOrder(schema: seq<SchemaItem>, m: nat, n: nat)
    requires m < n < |DedupBy(TableNames(schema), Identity)|
    ensures var names := TableNames(schema);
      var tables := DedupBy(names, Identity);
      KeyOccurs(names, Identity, tables[m]) && KeyOccurs(names, Identity, tables[n]) &&
      FirstIndex(names, Identity, tables[m]) < FirstIndex(names, Identity, tables[n])
  {
    DedupByKeepsOrder(TableNames(schema), Identity, m, n);
  }

  // ---------------------------------------------------------------- entities

  datatype EntityKey = EntityKey(partitionKey: string, rowKey: string)

  /** A table entity: its keys and its other properties. */
  datatype Entity = Entity(key: EntityKey, properties: map<string, string>)

  /** The number of entities `copyTableData` hands to one `processBatch` call. */
  const BatchSize: nat := 100

  /** `processBatch`: one `upsertEntity(entity, 'Replace')` per entity, each of which
      either replaces the row with that key or fails, as `upsertOk` says; a failure
      is logged and swallowed. The upserts are applied in batch order. */
  function UpsertAll(rows: map<EntityKey, Entity>, batch: seq<Entity>, upsertOk: Entity -> bool): (r: map<EntityKey, Entity>)
    ensures rows.Keys <= r.Keys
    decreases |batch|
  {
    if batch == [] then rows
    else
      var e := batch[0];
      UpsertAll(if upsertOk(e) then rows[e.key := e] else rows, batch[1..], upsertOk)
  }

  /** Upserting two batches in turn is upserting their concatenation: cutting the
      entity stream into batches does not change the destination. */
  lemma {:induction false} UpsertAllAppend(rows: map<EntityKey, Entity>, a: seq<Entity>, b: seq<Entity>, upsertOk: Entity -> bool)
    ensures UpsertAll(rows, a + b, upsertOk) == UpsertAll(UpsertAll(rows, a, upsertOk), b, upsertOk)
    decreases |a|
  {
    if a != [] {
      assert (a + b)[0] == a[0] && (a + b)[1..] == a[1..] + b;
      var e := a[0];
      UpsertAllAppend(if upsertOk(e) then rows[e.key := e] else rows, a[1..], b, upsertOk);
    } else {
      assert a + b == b;
    }
  }

  /** A key that no successful upsert writes keeps its old row (or stays absent). */
  lemma {:induction false} UpsertAllKeepsUntouchedRows(rows: map<EntityKey, Entity>, batch: seq<Entity>, upsertOk: Entity -> bool, k: EntityKey)
    requires forall i :: 0 <= i < |batch| && batch[i].key == k ==> !upsertOk(batch[i])
    ensures k in UpsertAll(rows, batch, upsertOk) <==> k in rows
    ensures k in rows ==> UpsertAll(rows, batch, upsertOk)[k] == rows[k]
    decreases |batch|
  {
    if batch != [] {
      var e := batch[0];
      assert forall i :: 0 <= i < |batch[1..]| ==> batch[1..][i] == batch[i + 1];
      UpsertAllKeepsUntouchedRows(if upsertOk(e) then rows[e.key := e] else rows, batch[1..], upsertOk, k);
    }
  }

  /** The row under a key is the last entity with that key whose upsert succeeded. */
  lemma {:induction false} UpsertAllLastWriteWins(rows: map<EntityKey, Entity>, batch: seq<Entity>, upsertOk: Entity -> bool, i: nat)
    requires i < |batch| && upsertOk(batch[i])
    requires forall j :: i < j < |batch| && batch[j].key == batch[i].key ==> !upsertOk(batch[j])
    ensures batch[i].key in UpsertAll(rows, batch, upsertOk)
    ensures UpsertAll(rows, batch, upsertOk)[batch[i].key] == batch[i]
    decreases |batch|
  {
    var e := batch[0];
    var rows1 := if upsertOk(e) then rows[e.key := e] else rows;
    if i == 0 {
      assert forall j :: 0 <= j < |batch[1..]| ==> batch[1..][j] == batch[j + 1];
      UpsertAllKeepsUntouchedRows(rows1, batch[1..], upsertOk, e.key);
    } else {
      assert batch[1..][i - 1] == batch[i];
      UpsertAllLastWriteWins(rows1, batch[1..], upsertOk, i - 1);
    }
  }

  /** All keys of `batch` differ, as the entities a table lists do. */
  predicate DistinctKeys(batch: seq<Entity>)
  {
    forall i, j :: 0 <= i < j < |batch| ==> batch[i].key != batch[j].key
  }

  /** With distinct keys the order of the upserts does not matter: the destination
      holds every entity whose upsert succeeded, and every other row as it was. */
  lemma UpsertAllDistinct(rows: map<EntityKey, Entity>, batch: seq<Entity>, upsertOk: Entity -> bool)
    requires DistinctKeys(batch)
    ensures forall i :: 0 <= i < |batch| && upsertOk(batch[i]) ==>
      batch[i].key in UpsertAll(rows, batch, upsertOk) && UpsertAll(rows, batch, upsertOk)[batch[i].key] == batch[i]
    ensures forall k :: (forall i :: 0 <= i < |batch| && batch[i].key == k ==> !upsertOk(batch[i])) ==>
      (k in UpsertAll(rows, batch, upsertOk) <==> k in rows) &&
      (k in rows ==> UpsertAll(rows, batch, upsertOk)[k] == rows[k])
  {
    forall i | 0 <= i < |batch| && upsertOk(batch[i])
      ensures batch[i].key in UpsertAll(rows, batch, upsertOk) && UpsertAll(rows, batch, upsertOk)[batch[i].key] == batch[i]
    {
      UpsertAllLastWriteWins(rows, batch, upsertOk, i);
    }
    forall k | forall i :: 0 <= i < |batch| && batch[i].key == k ==> !upsertOk(batch[i])
      ensures (k in UpsertAll(rows, batch, upsertOk) <==> k in rows) &&
              (k in rows ==> UpsertAll(rows, batch, upsertOk)[k] == rows[k])
    {
      UpsertAllKeepsUntouchedRows(rows, batch, upsertOk, k);
    }
  }

  /** Handing one more batch to `processBatch` extends the entities upserted so far. */
  lemma FlushedBatch(rows: map<EntityKey, Entity>, batches: seq<seq<Entity>>, batch: seq<Entity>, upsertOk: Entity -> bool)
    ensures Flatten(batches + [batch]) == Flatten(batches) + batch
    ensures UpsertAll(rows, Flatten(batches + [batch]), upsertOk)
            == UpsertAll(UpsertAll(rows, Flatten(batches), upsertOk), batch, upsertOk)
  {
    FlattenAppend(batches, [batch]);
    assert Flatten([batch]) == batch + Flatten([batch][1..]);
    assert [batch][1..] == [];
    UpsertAllAppend(rows, Flatten(batches), batch, upsertOk);
  }

  /** Why `copyTableData` threw before reading any entity. */
  datatype TableError =
    | SourceProbeFailed(cause: ServiceError)   // listing the first source entity failed
    | CreateTableFailed(cause: ServiceError)   // creating the destination table failed other than with 409

  /** `copyTableData` for one table. `probe` is the outcome of reading the first
      source entity, `create` that of creating the destination table (a 409 means
      it already exists), `entities` what the source lists, `upsertOk` which upserts
      succeed and `rows` the destination table before the copy. Returns the entity
      count, the batches handed to `processBatch` and the destination afterwards. */
  method CopyTableData(probe: Option<ServiceError>, create: Option<ServiceError>, entities: seq<Entity>,
                       upsertOk: Entity -> bool, rows: map<EntityKey, Entity>)
    returns (result: Result<nat, TableError>, batches: seq<seq<Entity>>, rowsAfter: map<EntityKey, Entity>)
    ensures probe.Some? ==> result == Err(SourceProbeFailed(probe.value)) && batches == [] && rowsAfter == rows
    ensures probe.None? && create.Some? && create.value.statusCode != 409 ==>
      result == Err(CreateTableFailed(create.value)) && batches == [] && rowsAfter == rows
    ensures probe.None? && (create.None? || create.value.statusCode == 409) ==>
      && result == Ok(|entities|)
      && IsBatching(batches, entities, BatchSize)
      && batches == Chunks(entities, BatchSize)
      && rowsAfter == UpsertAll(rows, entities, upsertOk)
  {
    batches, rowsAfter := [], rows;
    if probe.Some? {
      return Err(SourceProbeFailed(probe.value)), batches, rowsAfter;
    }
    if create.Some? && create.value.statusCode != 409 {
      return Err(CreateTableFailed(create.value)), batches, rowsAfter;
    }
    var entityCount;
    entityCount, batches, rowsAfter := CopyEntities(entities, upsertOk, rows);
    result := Ok(entityCount);
  }

  /** The entity loop of `copyTableData`: entities are gathered into batches of
      `BatchSize`, each full batch is upserted as soon as it fills, and the last,
      shorter batch once the listing ends. */
  method CopyEntities(entities: seq<Entity>, upsertOk: Entity -> bool, rows: map<EntityKey, Entity>)
    returns (entityCount: nat, batches: seq<seq<Entity>>, rowsAfter: map<EntityKey, Entity>)
    ensures entityCount == |entities|
    ensures IsBatching(batches, entities, BatchSize) && batches == Chunks(entities, BatchSize)
    ensures rowsAfter == UpsertAll(rows, entities, upsertOk)
  {
    batches, rowsAfter := [], rows;
    entityCount := 0;
    var batch: seq<Entity> := [];
    for i := 0 to |entities|
      invariant Flatten(batches) + batch == entities[..i]
      invariant |batch| < BatchSize
      invariant forall k :: 0 <= k < |batches| ==> |batches[k]| == BatchSize
      invariant entityCount == |Flatten(batches)|
      invariant rowsAfter == UpsertAll(rows, Flatten(batches), upsertOk)
    {
      batch := batch + [entities[i]];
      assert Flatten(batches) + batch == entities[..i + 1];
      if |batch| >= BatchSize {
        FlushedBatch(rows, batches, batch, upsertOk);
        rowsAfter := UpsertAll(rowsAfter, batch, upsertOk);   // processBatch(destTable, batch)
        entityCount := entityCount + |batch|;
        batches := batches + [batch];
        batch := [];
      }
    }
    assert entities[..|entities|] == entities;
    ClosingBatch(batches, batch, entities, BatchSize);
    if |batch| > 0 {
      FlushedBatch(rows, batches, batch, upsertOk);
      rowsAfter := UpsertAll(rowsAfter, batch, upsertOk);
      entityCount := entityCount + |batch|;
      batches := batches + [batch];
    }
  }

  // ---------------------------------------------------------------- the table loop

  /** How `copyTableData` ended for one table: a count, or an error with its message. */
  datatype CopyOutcome = Copied(entityCount: nat) | Threw(message: string)

  /** The object one table's async task resolves to (status 'success' or 'failed'). */
  datatype TableResult =
    | Success(tableName: string, entityCount: nat)
    | Failed(tableName: string, error: string)

  datatype SucceededTable = SucceededTable(name: string, entities: nat)
  datatype FailedTable = FailedTable(name: string, reason: string)

  /** The counters and lists of the migration summary. */
  datatype TableReport = TableReport(
    successCount: nat, failCount: nat, totalEntities: nat,
    successfulTables: seq<SucceededTable>, failedTables: seq<FailedTable>)

  /** The task for one table catches whatever `copyTableData` throws. */
  function ResultOf(tableName: string, outcome: CopyOutcome): TableResult
  {
    match outcome
    case Copied(n) => Success(tableName, n)
    case Threw(message) => Failed(tableName, message)
  }

  /** The settled results of a chunk, in the order of the chunk. */
  function ResultsOf(tables: seq<string>, copyTable: string -> CopyOutcome): (results: seq<TableResult>)
    ensures |results| == |tables|
  {
    seq(|tables|, i requires 0 <= i < |tables| => ResultOf(tables[i], copyTable(tables[i])))
  }

  /** The summary after recording one more result, as the `forEach` body does: a
      success adds its entities, a failure records its name (or 'unknown') and its
      message (or 'Unknown error'). */
  function Record(report: TableReport, result: TableResult): (r: TableReport)
    ensures r.successCount + r.failCount == report.successCount + report.failCount + 1
  {
    match result
    case Success(name, n) =>
      report.(successCount := report.successCount + 1,
              totalEntities := report.totalEntities + n,
              successfulTables := report.successfulTables + [SucceededTable(name, n)])
    case Failed(name, error) =>
      report.(failCount := report.failCount + 1,
              failedTables := report.failedTables +
                [FailedTable(if name == "" then "unknown" else name,
                             if error == "" then "Unknown error" else error)])
  }

  /** The summary of a run whose results arrive in the given order. */
  function Tally(results: seq<TableResult>): (r: TableReport)
    ensures r.successCount + r.failCount == |results|
  {
    if results == [] then TableReport(0, 0, 0, [], [])
    else Record(Tally(results[..|results| - 1]), results[|results| - 1])
  }

  function SumEntities(tables: seq<SucceededTable>): nat
  {
    if tables == [] then 0 else SumEntities(tables[..|tables| - 1]) + tables[|tables| - 1].entities
  }

  /** Every table has exactly one outcome: successes and failures add up to the
      number of tables, and each count matches its list. */
  lemma {:induction false} TallyCounts(results: seq<TableResult>)
    ensures Tally(results).successCount + Tally(results).failCount == |results|
    ensures Tally(results).successCount == |Tally(results).successfulTables|
    ensures Tally(results).failCount == |Tally(results).failedTables|
  {
    if results != [] {
      TallyCounts(results[..|results| - 1]);
    }
  }

  /** The entity total is the sum over the successful tables; failed tables add nothing. */
  lemma {:induction false} TallyTotalIsSumOfSuccesses(results: seq<TableResult>)
    ensures Tally(results).totalEntities == SumEntities(Tally(results).successfulTables)
  {
    if results != [] {
      var init := Tally(results[..|results| - 1]);
      TallyTotalIsSumOfSuccesses(results[..|results| - 1]);
      match results[|results| - 1]
      case Success(name, n) =>
        var s := init.successfulTables + [SucceededTable(name, n)];
        assert s[..|s| - 1] == init.successfulTables;
      case Failed(_, _) =>
    }
  }

  /** The summaries of two consecutive runs combine into the summary of both. */
  function Combine(a: TableReport, b: TableReport): TableReport
  {
    TableReport(a.successCount + b.successCount, a.failCount + b.failCount,
                a.totalEntities + b.totalEntities,
                a.successfulTables + b.successfulTables, a.failedTables + b.failedTables)
  }

  /** Tallying is compositional: splitting the tables into chunks (of any size) and
      tallying chunk after chunk gives the summary of the whole list, with both lists
      in enumeration order. */
  lemma {:induction false} TallyAppend(a: seq<TableResult>, b: seq<TableResult>)
    ensures Tally(a + b) == Combine(Tally(a), Tally(b))
  {
    if b == [] {
      assert a + b == a;
    } else {
      var b0 := b[..|b| - 1];
      var x := b[|b| - 1];
      assert a + b == (a + b0) + [x];
      TallySnoc(a + b0, x);
      TallySnoc(b0, x);
      assert b == b0 + [x];
      TallyAppend(a, b0);
      RecordCombine(Tally(a), Tally(b0), x);
    }
  }

  lemma TallySnoc(xs: seq<TableResult>, x: TableResult)
    ensures Tally(xs + [x]) == Record(Tally(xs), x)
  {
    assert (xs + [x])[..|xs|] == xs;
  }

  lemma RecordCombine(a: TableReport, b: TableReport, x: TableResult)
    ensures Record(Combine(a, b), x) == Combine(a, Record(b, x))
  {
    match x
    case Success(name, n) =>
      assert a.successfulTables + b.successfulTables + [SucceededTable(name, n)]
          == a.successfulTables + (b.successfulTables + [SucceededTable(name, n)]);
    case Failed(name, error) =>
      var f := FailedTable(if name == "" then "unknown" else name, if error == "" then "Unknown error" else error);
      assert a.failedTables + b.failedTables + [f] == a.failedTables + (b.failedTables + [f]);
  }

  /** The task results for a prefix extended by a chunk. */
  lemma ResultsOfAppend(tables: seq<string>, i: nat, j: nat, copyTable: string -> CopyOutcome)
    requires i <= j <= |tables|
    ensures ResultsOf(tables[..j], copyTable) == ResultsOf(tables[..i], copyTable) + ResultsOf(tables[i..j], copyTable)
  {
    var lhs := ResultsOf(tables[..j], copyTable);
    var rhs := ResultsOf(tables[..i], copyTable) + ResultsOf(tables[i..j], copyTable);
    forall k | 0 <= k < j ensures lhs[k] == rhs[k] {
      if k >= i {
        assert tables[i..j][k - i] == tables[k];
      }
    }
  }

  lemma TallyStep(done: seq<TableResult>, results: seq<TableResult>, j: nat)
    requires j < |results|
    ensures Tally(done + results[..j + 1]) == Record(Tally(done + results[..j]), results[j])
  {
    assert (done + results[..j + 1])[..|done| + j] == done + results[..j];
    assert (done + results[..j + 1])[|done| + j] == results[j];
  }

  /** One pass of the chunk loop: the chunk `tables.slice(i, i + n)` is the next of
      `Chunks(tables, n)`, and its results extend those of the tables before it. */
  lemma ChunkStep(tables: seq<string>, i: nat, n: nat, copyTable: string -> CopyOutcome, chunks: seq<seq<string>>)
    requires n >= 1 && i < |tables|
    requires Chunks(tables, n) == chunks + Chunks(tables[i..], n)
    ensures var end := Min(i + n, |tables|);
      && Chunks(tables, n) == (chunks + [tables[i..end]]) + Chunks(tables[end..], n)
      && ResultsOf(tables[..end], copyTable) == ResultsOf(tables[..i], copyTable) + ResultsOf(tables[i..end], copyTable)
  {
    var end := Min(i + n, |tables|);
    assert Chunks(tables, n) == (chunks + [tables[i..end]]) + Chunks(tables[end..], n) by {
      var rest := tables[i..];
      ChunksFirst(rest, n);
      assert Min(n, |rest|) == end - i;
      assert rest[..end - i] == tables[i..end];
      assert rest[end - i..] == tables[end..];
      assert chunks + ([tables[i..end]] + Chunks(tables[end..], n)) == (chunks + [tables[i..end]]) + Chunks(tables[end..], n);
    }
    ResultsOfAppend(tables, i, end, copyTable);
  }

  /** The inner loop of `main` over one chunk's settled results: each result
      updates the counters and lists, in chunk order. */
  method RecordChunk(before: TableReport, ghost done: seq<TableResult>, results: seq<TableResult>)
    returns (report: TableReport)
    requires before == Tally(done)
    ensures report == Tally(done + results)
  {
    report := before;
    assert done + results[..0] == done;
    for j := 0 to |results|
      invariant report == Tally(done + results[..j])
    {
      TallyStep(done, results, j);
      match results[j]
      case Success(tableName, entityCount) =>
        report := report.(totalEntities := report.totalEntities + entityCount,
                          successCount := report.successCount + 1,
                          successfulTables := report.successfulTables + [SucceededTable(tableName, entityCount)]);
      case Failed(tableName, error) =>
        var name := if tableName == "" then "unknown" else tableName;
        var errorMsg := if error == "" then "Unknown error" else error;
        report := report.(failCount := report.failCount + 1,
                          failedTables := report.failedTables + [FailedTable(name, errorMsg)]);
    }
    assert results[..|results|] == results;
  }

  /** `main`'s migration loop: the tables go in chunks `tables.slice(i, i +
      maxConcurrency)`, each chunk's results are recorded in chunk order. The
      summary does not depend on `maxConcurrency`, and the chunks are
      `Chunks(tables, maxConcurrency)`. `parseInt` may give 0, with which the
      script never terminates, so a positive value is required. */
  method MigrateTables(tables: seq<string>, maxConcurrency: nat, copyTable: string -> CopyOutcome)
    returns (report: TableReport, ghost chunks: seq<seq<string>>)
    requires maxConcurrency >= 1
    ensures report == Tally(ResultsOf(tables, copyTable))
    ensures report.successCount + report.failCount == |tables|
    ensures report.totalEntities == SumEntities(report.successfulTables)
    ensures chunks == Chunks(tables, maxConcurrency)
  {
    report := TableReport(0, 0, 0, [], []);
    chunks := [];
    var i := 0;
    ghost var pos := 0;
    while i < |tables|
      invariant pos == Min(i, |tables|)
      invariant report == Tally(ResultsOf(tables[..pos], copyTable))
      invariant Chunks(tables, maxConcurrency) == chunks + Chunks(tables[pos..], maxConcurrency)
      decreases |tables| - i
    {
      var end := Min(i + maxConcurrency, |tables|);
      var batch := tables[i..end];
      var results := ResultsOf(batch, copyTable);
      report := RecordChunk(report, ResultsOf(tables[..i], copyTable), results);
      ChunkStep(tables, i, maxConcurrency, copyTable, chunks);
      chunks := chunks + [batch];
      i := i + maxConcurrency;
      pos := end;
    }
    assert tables[..|tables|] == tables;
    TallyCounts(ResultsOf(tables, copyTable));
    TallyTotalIsSumOfSuccesses(ResultsOf(tables, copyTable));
  }
}
