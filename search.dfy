/** Sanitising and migrating search artifacts in
    data_plane/search-service-data-plane.js: stripping read-only properties,
    cleaning indexers, overriding data-source connection strings, and the
    fail-fast migration of data sources, indexes, skillsets and indexers. */
module Search {
  import opened Wrappers

  // ---------------------------------------------------------------- JSON objects

  /** A JavaScript object: its own enumerable properties. Objects are shared by
      reference, so a shallow copy shares its nested objects with the original. */
  class JsonObject {
    var props: map<string, Value>

    constructor (props: map<string, Value>)
      ensures this.props == props
    {
      this.props := props;
    }
  }

  /** A JSON value; nested objects are references. */
  datatype Value =
    | Null
    | Bool(b: bool)
    | Num(n: int)
    | Str(s: string)
    | Arr(items: seq<Value>)
    | Obj(obj: JsonObject)

  /** Properties the service adds to what it returns and refuses on the way in. */
  const ReadOnlyKeys: set<string> := {"@odata.etag", "@odata.context"}

  /** An indexer's run state, deleted before an indexer is sent. */
  const IndexerStatusKeys: set<string> := {"lastResult", "executionHistory", "status"}

  const QueryTimeout: string := "queryTimeout"

  /** `props` with the properties `keys` deleted. */
  function Strip(props: map<string, Value>, keys: set<string>): (r: map<string, Value>)
    ensures forall k :: k in r <==> k in props && k !in keys
    ensures forall k :: k in r ==> r[k] == props[k]
  {
    props - keys
  }

  /** Deleting one set of keys and then another is deleting both. */
  lemma StripTwice(props: map<string, Value>, a: set<string>, b: set<string>)
    ensures Strip(Strip(props, a), b) == Strip(props, a + b)
  {
  }

  /** `cleanReadOnlyProperties`: a shallow copy without the read-only properties.
      The argument is not modified. */
  method CleanReadOnlyProperties(obj: JsonObject) returns (cleaned: JsonObject)
    ensures fresh(cleaned)
    ensures cleaned.props == Strip(obj.props, ReadOnlyKeys)
  {
    cleaned := new JsonObject(obj.props);
    cleaned.props := cleaned.props - {"@odata.etag"};
    cleaned.props := cleaned.props - {"@odata.context"};
  }

  /** The object `obj.parameters`, when it is one. */
  function Parameters(obj: JsonObject): set<JsonObject>
    reads obj
  {
    if "parameters" in obj.props && obj.props["parameters"].Obj? then {obj.props["parameters"].obj} else {}
  }

  /** The object `obj.parameters.configuration`, when both are objects: the object
      `deepCleanDataSourceProperties` deletes `queryTimeout` from. */
  function Configuration(obj: JsonObject): set<JsonObject>
    reads obj, Parameters(obj)
  {
    if Parameters(obj) == {} then {}
    else
      var p := obj.props["parameters"].obj;
      if "configuration" in p.props && p.props["configuration"].Obj? then {p.props["configuration"].obj} else {}
  }

  /** `deepCleanDataSourceProperties`: a null argument comes back as is; otherwise
      the result is a shallow copy, and `queryTimeout` is deleted from the nested
      `parameters.configuration` object that the copy shares with the argument. */
  method DeepCleanDataSourceProperties(obj: JsonObject?) returns (cleaned: JsonObject?)
    modifies if obj == null then {} else Configuration(obj)
    ensures obj == null ==> cleaned == null
    ensures obj != null ==> cleaned != null && fresh(cleaned) && cleaned.props == old(obj.props)
    ensures obj != null ==> forall c :: c in old(Configuration(obj)) ==> c.props == old(c.props) - {QueryTimeout}
  {
    if obj == null {
      return obj;
    }
    cleaned := new JsonObject(obj.props);
    if "parameters" in cleaned.props && cleaned.props["parameters"].Obj? {
      var parameters := cleaned.props["parameters"].obj;
      if "configuration" in parameters.props && parameters.props["configuration"].Obj? {
        var configuration := parameters.props["configuration"].obj;
        configuration.props := configuration.props - {QueryTimeout};
      }
    }
  }

  /** Stripping keeps `parameters`, so a stripped copy shares its configuration with
      the original. */
  lemma StripKeepsConfiguration(obj: JsonObject, copy: JsonObject, keys: set<string>)
    requires "parameters" !in keys
    requires copy.props == Strip(obj.props, keys)
    ensures Parameters(copy) == Parameters(obj)
    ensures Configuration(copy) == Configuration(obj)
  {
  }

  /** What the indexer loop sends for one indexer: the read-only and run-state
      properties deleted, then `deepCleanDataSourceProperties`. */
  method CleanIndexer(indexer: JsonObject) returns (cleaned: JsonObject)
    modifies Configuration(indexer)
    ensures fresh(cleaned)
    ensures cleaned.props == Strip(old(indexer.props), ReadOnlyKeys + IndexerStatusKeys)
    ensures forall c :: c in old(Configuration(indexer)) ==> c.props == old(c.props) - {QueryTimeout}
  {
    var stripped := CleanReadOnlyProperties(indexer);
    stripped.props := stripped.props - {"lastResult"};
    stripped.props := stripped.props - {"executionHistory"};
    stripped.props := stripped.props - {"status"};
    StripTwice(indexer.props, ReadOnlyKeys, IndexerStatusKeys);
    assert stripped.props == Strip(Strip(indexer.props, ReadOnlyKeys), IndexerStatusKeys);
    StripKeepsConfiguration(indexer, stripped, ReadOnlyKeys + IndexerStatusKeys);
    var result := DeepCleanDataSourceProperties(stripped);
    cleaned := result;
  }

  /** One turn of the indexer loop, for an indexer whose properties were
      `original` before earlier turns deleted `queryTimeout` from shared objects;
      `initial` holds the properties every object in `configurations` had then. */
  method CleanSharedIndexer(indexer: JsonObject, ghost original: map<string, Value>, ghost configuration: set<JsonObject>,
                            ghost configurations: set<JsonObject>, ghost initial: map<JsonObject, map<string, Value>>,
                            ghost done: set<JsonObject>)
    returns (cleaned: JsonObject)
    requires LostAtMostQueryTimeout(original, indexer.props)
    requires Configuration(indexer) == configuration && configuration <= configurations && done <= configurations
    requires forall c :: c in configurations ==> c in initial && LostAtMostQueryTimeout(initial[c], c.props)
    requires forall c :: c in done ==> c.props == initial[c] - {QueryTimeout}
    modifies configuration
    ensures fresh(cleaned)
    ensures SentAsCleaned(cleaned.props, original)
    ensures forall c :: c in configurations ==> LostAtMostQueryTimeout(initial[c], c.props)
    ensures forall c :: c in done + configuration ==> c.props == initial[c] - {QueryTimeout}
  {
    cleaned := CleanIndexer(indexer);
    StripAfterLoss(original, old(indexer.props), ReadOnlyKeys + IndexerStatusKeys);
    forall c | c in configuration
      ensures c.props == initial[c] - {QueryTimeout}
    {
      LosingQueryTimeoutAgain(initial[c], old(c.props), c.props);
    }
  }

  /** `after` is `before`, with at most its `queryTimeout` deleted. */
  predicate LostAtMostQueryTimeout(before: map<string, Value>, after: map<string, Value>)
  {
    after == before || after == before - {QueryTimeout}
  }

  /** Deleting `queryTimeout` from a map that may already have lost it. */
  lemma LosingQueryTimeoutAgain(before: map<string, Value>, mid: map<string, Value>, after: map<string, Value>)
    requires LostAtMostQueryTimeout(before, mid)
    requires after == mid - {QueryTimeout}
    ensures after == before - {QueryTimeout}
  {
    if mid != before {
      assert after == before - {QueryTimeout};
    }
  }

  /** `body` is what the indexer loop sends for an indexer with properties
      `original`: no read-only or run-state property, and, `queryTimeout` aside,
      everything else as it was. */
  predicate SentAsCleaned(body: map<string, Value>, original: map<string, Value>)
  {
    Strip(body, {QueryTimeout}) == Strip(original, ReadOnlyKeys + IndexerStatusKeys + {QueryTimeout})
  }

  /** Losing `queryTimeout` keeps the `parameters` and `configuration` links. */
  lemma KeepsLinks(before: map<string, Value>, after: map<string, Value>)
    requires LostAtMostQueryTimeout(before, after)
    ensures "parameters" in after <==> "parameters" in before
    ensures "parameters" in after ==> after["parameters"] == before["parameters"]
    ensures "configuration" in after <==> "configuration" in before
    ensures "configuration" in after ==> after["configuration"] == before["configuration"]
  {
  }

  /** Stripping a map that may have lost `queryTimeout` gives, apart from
      `queryTimeout`, what stripping the original gives. */
  lemma StripAfterLoss(before: map<string, Value>, after: map<string, Value>, keys: set<string>)
    requires LostAtMostQueryTimeout(before, after)
    ensures Strip(Strip(after, keys), {QueryTimeout}) == Strip(before, keys + {QueryTimeout})
  {
  }

  // ---------------------------------------------------------------- the migration

  datatype Kind = DataSource | Index | Skillset | Indexer

  /** One request sent to the target service: which artifact, and the body. */
  datatype Submission = Submission(kind: Kind, position: nat, body: map<string, Value>)

  /** The target service's `createOrUpdate*` calls: an error message when the call
      throws. */
  type CreateOrUpdate = (Kind, map<string, Value>) -> Option<string>

  predicate Accepted(s: Submission, createOrUpdate: CreateOrUpdate)
  {
    createOrUpdate(s.kind, s.body).None?
  }

  /** `submitted` is a fail-fast loop over `n` artifacts of `kind`: they are sent in
      order, each only after the previous one was accepted. */
  predicate PhaseRun(kind: Kind, n: nat, submitted: seq<Submission>, createOrUpdate: CreateOrUpdate)
  {
    && |submitted| <= n
    && (forall j :: 0 <= j < |submitted| ==> submitted[j].kind == kind && submitted[j].position == j)
    && (forall j :: 0 <= j < |submitted| - 1 ==> Accepted(submitted[j], createOrUpdate))
  }

  /** A loop's result: it completes when every artifact was sent and accepted, and
      an error is the rejection of the last request sent, or, only where `other`
      allows it, another failure before anything was sent. */
  predicate PhaseResult(r: Result<(), string>, n: nat, submitted: seq<Submission>, createOrUpdate: CreateOrUpdate, other: bool)
    requires |submitted| <= n
  {
    && (r.Ok? <==> |submitted| == n && forall j :: 0 <= j < |submitted| ==> Accepted(submitted[j], createOrUpdate))
    && (r.Err? ==>
          || (|submitted| > 0 && !Accepted(submitted[|submitted| - 1], createOrUpdate)
              && r.error == createOrUpdate(submitted[|submitted| - 1].kind, submitted[|submitted| - 1].body).value)
          || (|submitted| == 0 && n > 0 && other))
  }

  /** Every request in `submitted` was accepted. */
  predicate AllAccepted(submitted: seq<Submission>, createOrUpdate: CreateOrUpdate)
  {
    forall j :: 0 <= j < |submitted| ==> Accepted(submitted[j], createOrUpdate)
  }

  /** A phase over `n` artifacts completed: every one was sent and accepted. */
  predicate Completed(submitted: seq<Submission>, n: nat, createOrUpdate: CreateOrUpdate)
  {
    |submitted| == n && AllAccepted(submitted, createOrUpdate)
  }

  const NotInitializedMessage: string := "Storage connection string not initialized. Call initializeSearchClients first."

  /** The module-level state the migration reads: the storage connection string
      fetched from the key vault. */
  class SearchMigration {
    var storageConnectionString: Option<string>

    constructor (storageConnectionString: Option<string>)
      ensures this.storageConnectionString == storageConnectionString
    {
      this.storageConnectionString := storageConnectionString;
    }

    /** `getStorageConnectionString`: fails while the string is missing or empty. */
    function GetStorageConnectionString(): (r: Result<string, string>)
      reads this
      ensures r.Ok? <==> storageConnectionString.Some? && storageConnectionString.value != ""
      ensures r.Ok? ==> r.value == storageConnectionString.value
      ensures r.Err? ==> r.error == NotInitializedMessage
    {
      if storageConnectionString.None? || storageConnectionString.value == "" then Err(NotInitializedMessage)
      else Ok(storageConnectionString.value)
    }

    /** `updateDataSourceConnectionString`: sets `connectionString` on its argument
      and nothing else, or fails and leaves it alone. */
    method UpdateDataSourceConnectionString(dataSource: JsonObject) returns (r: Result<(), string>)
      modifies dataSource
      ensures r.Ok? <==> GetStorageConnectionString().Ok?
      ensures r.Ok? ==> dataSource.props == old(dataSource.props)["connectionString" := Str(GetStorageConnectionString().value)]
      ensures r.Err? ==> dataSource.props == old(dataSource.props) && r.error == NotInitializedMessage
    {
      var newConnectionString := GetStorageConnectionString();
      if newConnectionString.Err? {
        return Err(newConnectionString.error);
      }
      dataSource.props := dataSource.props["connectionString" := Str(newConnectionString.value)];
      r := Ok(());
    }

    /** `migrateDataSources`: each data source is sent without its read-only
        properties and with the storage connection string. */
    method MigrateDataSources(dataSources: seq<JsonObject>, createOrUpdate: CreateOrUpdate)
      returns (r: Result<(), string>, submitted: seq<Submission>)
      ensures PhaseRun(DataSource, |dataSources|, submitted, createOrUpdate)
      ensures PhaseResult(r, |dataSources|, submitted, createOrUpdate,
                          GetStorageConnectionString().Err? && r == Err(NotInitializedMessage))
      ensures forall j :: 0 <= j < |submitted| ==>
        && GetStorageConnectionString().Ok?
        && submitted[j].body == Strip(dataSources[j].props, ReadOnlyKeys)["connectionString" := Str(GetStorageConnectionString().value)]
    {
      submitted := [];
      for i := 0 to |dataSources|
        invariant |submitted| == i
        invariant forall j :: 0 <= j < i ==> submitted[j].kind == DataSource && submitted[j].position == j
        invariant forall j :: 0 <= j < i ==> Accepted(submitted[j], createOrUpdate)
        invariant forall j :: 0 <= j < i ==>
          && GetStorageConnectionString().Ok?
          && submitted[j].body == Strip(dataSources[j].props, ReadOnlyKeys)["connectionString" := Str(GetStorageConnectionString().value)]
      {
        var cleanedDataSource := CleanReadOnlyProperties(dataSources[i]);
        var updated := UpdateDataSourceConnectionString(cleanedDataSource);
        if updated.Err? {
          return Err(updated.error), submitted;
        }
        var submission := Submission(DataSource, i, cleanedDataSource.props);
        submitted := submitted + [submission];
        var error := createOrUpdate(DataSource, cleanedDataSource.props);
        if error.Some? {
          assert submitted[|submitted| - 1] == submission && !Accepted(submission, createOrUpdate);
          return Err(error.value), submitted;
        }
      }
      r := Ok(());
    }

    /** `migrateIndexes` and `migrateSkillsets`: each artifact is sent without its
        read-only properties. */
    method MigrateCleanedArtifacts(kind: Kind, artifacts: seq<JsonObject>, createOrUpdate: CreateOrUpdate)
      returns (r: Result<(), string>, submitted: seq<Submission>)
      ensures PhaseRun(kind, |artifacts|, submitted, createOrUpdate)
      ensures PhaseResult(r, |artifacts|, submitted, createOrUpdate, false)
      ensures forall j :: 0 <= j < |submitted| ==> submitted[j].body == Strip(artifacts[j].props, ReadOnlyKeys)
    {
      submitted := [];
      for i := 0 to |artifacts|
        invariant |submitted| == i
        invariant forall j :: 0 <= j < i ==> submitted[j].kind == kind && submitted[j].position == j
        invariant forall j :: 0 <= j < i ==> Accepted(submitted[j], createOrUpdate)
        invariant forall j :: 0 <= j < i ==> submitted[j].body == Strip(artifacts[j].props, ReadOnlyKeys)
      {
        var cleaned := CleanReadOnlyProperties(artifacts[i]);
        submitted := submitted + [Submission(kind, i, cleaned.props)];
        var error := createOrUpdate(kind, cleaned.props);
        if error.Some? {
          assert !Accepted(submitted[|submitted| - 1], createOrUpdate);
          return Err(error.value), submitted;
        }
      }
      r := Ok(());
    }
  
    /** `migrateIndexers`: each indexer is sent without its read-only and run-state
        properties, after `queryTimeout` is deleted from its configuration object,
        which several indexers may share. `configurationOf` names each indexer's
        configuration object and `configurations` the objects the loop may change. */
    method MigrateIndexers(indexers: seq<JsonObject>, ghost configurationOf: seq<set<JsonObject>>, ghost configurations: set<JsonObject>, createOrUpdate: CreateOrUpdate)
      returns (r: Result<(), string>, submitted: seq<Submission>)
      requires |configurationOf| == |indexers|
      requires forall j :: 0 <= j < |indexers| ==> Configuration(indexers[j]) == configurationOf[j]
      requires forall j :: 0 <= j < |indexers| ==> configurationOf[j] <= configurations
      modifies configurations
      ensures PhaseRun(Indexer, |indexers|, submitted, createOrUpdate)
      ensures PhaseResult(r, |indexers|, submitted, createOrUpdate, false)
      ensures forall j :: 0 <= j < |submitted| ==>
        SentAsCleaned(submitted[j].body, old(indexers[j].props))
      ensures forall c :: c in configurations ==> LostAtMostQueryTimeout(old(c.props), c.props)
      ensures r.Ok? ==> forall j, c :: 0 <= j < |indexers| && c in configurationOf[j] ==> c.props == old(c.props) - {QueryTimeout}
    {
      ghost var initial := map c | c in configurations :: c.props;
      ghost var done: set<JsonObject> := {};
      submitted := [];
      for i := 0 to |indexers|
        invariant |submitted| == i
        invariant forall j :: 0 <= j < i ==> submitted[j].kind == Indexer && submitted[j].position == j
        invariant forall j :: 0 <= j < i ==> Accepted(submitted[j], createOrUpdate)
        invariant forall j :: 0 <= j < i ==>
          SentAsCleaned(submitted[j].body, old(indexers[j].props))
        invariant forall c :: c in configurations ==> LostAtMostQueryTimeout(initial[c], c.props)
        invariant done <= configurations && forall j :: 0 <= j < i ==> configurationOf[j] <= done
        invariant forall c :: c in done ==> c.props == initial[c] - {QueryTimeout}
      {
        var indexer := indexers[i];
        assert LostAtMostQueryTimeout(old(indexer.props), indexer.props);
        assert Configuration(indexer) == configurationOf[i] by {
          KeepsLinks(old(indexer.props), indexer.props);
          if "parameters" in indexer.props && indexer.props["parameters"].Obj? {
            var parameters := indexer.props["parameters"].obj;
            assert LostAtMostQueryTimeout(old(parameters.props), parameters.props);
            KeepsLinks(old(parameters.props), parameters.props);
          }
        }
        var cleanedIndexer := CleanSharedIndexer(indexer, old(indexer.props), configurationOf[i], configurations, initial, done);
        ghost var previousDone := done;
        done := done + configurationOf[i];
        ghost var previous := submitted;
        submitted := submitted + [Submission(Indexer, i, cleanedIndexer.props)];
        forall j | 0 <= j <= i
          ensures submitted[j].kind == Indexer && submitted[j].position == j
          ensures SentAsCleaned(submitted[j].body, old(indexers[j].props))
          ensures configurationOf[j] <= done
        {
          if j < i {
            assert submitted[j] == previous[j];
            assert configurationOf[j] <= previousDone;
          }
        }
        var error := createOrUpdate(Indexer, cleanedIndexer.props);
        if error.Some? {
          assert !Accepted(submitted[|submitted| - 1], createOrUpdate);
          return Err(error.value), submitted;
        }
      }
      r := Ok(());
    }

    /** `migrateSearchConfiguration`: data sources, then indexes, skillsets and
        indexers, stopping at the first failure. A phase sends anything only once
        every earlier phase completed; the run succeeds exactly when all four
        completed, and otherwise fails with the first incomplete phase's error. */
    method MigrateSearchConfiguration(dataSources: seq<JsonObject>, indexes: seq<JsonObject>, skillsets: seq<JsonObject>,
                                      indexers: seq<JsonObject>, ghost configurationOf: seq<set<JsonObject>>,
                                      ghost configurations: set<JsonObject>, createOrUpdate: CreateOrUpdate)
      returns (r: Result<(), string>, dataSourceRequests: seq<Submission>, indexRequests: seq<Submission>,
               skillsetRequests: seq<Submission>, indexerRequests: seq<Submission>)
      requires |configurationOf| == |indexers|
      requires forall j :: 0 <= j < |indexers| ==> Configuration(indexers[j]) == configurationOf[j]
      requires forall j :: 0 <= j < |indexers| ==> configurationOf[j] <= configurations
      modifies configurations
      ensures PhaseRun(DataSource, |dataSources|, dataSourceRequests, createOrUpdate)
      ensures PhaseRun(Index, |indexes|, indexRequests, createOrUpdate)
      ensures PhaseRun(Skillset, |skillsets|, skillsetRequests, createOrUpdate)
      ensures PhaseRun(Indexer, |indexers|, indexerRequests, createOrUpdate)
      ensures |indexRequests| > 0 ==> Completed(dataSourceRequests, |dataSources|, createOrUpdate)
      ensures |skillsetRequests| > 0 ==> Completed(indexRequests, |indexes|, createOrUpdate) && Completed(dataSourceRequests, |dataSources|, createOrUpdate)
      ensures |indexerRequests| > 0 ==> Completed(skillsetRequests, |skillsets|, createOrUpdate) && Completed(indexRequests, |indexes|, createOrUpdate)
                                         && Completed(dataSourceRequests, |dataSources|, createOrUpdate)
      ensures r.Ok? <==> && Completed(dataSourceRequests, |dataSources|, createOrUpdate)
                         && Completed(indexRequests, |indexes|, createOrUpdate)
                         && Completed(skillsetRequests, |skillsets|, createOrUpdate)
                         && Completed(indexerRequests, |indexers|, createOrUpdate)
      ensures !Completed(dataSourceRequests, |dataSources|, createOrUpdate) ==>
        PhaseResult(r, |dataSources|, dataSourceRequests, createOrUpdate, GetStorageConnectionString().Err? && r == Err(NotInitializedMessage))
      ensures Completed(dataSourceRequests, |dataSources|, createOrUpdate) && !Completed(indexRequests, |indexes|, createOrUpdate) ==>
        PhaseResult(r, |indexes|, indexRequests, createOrUpdate, false)
      ensures && Completed(dataSourceRequests, |dataSources|, createOrUpdate) && Completed(indexRequests, |indexes|, createOrUpdate)
              && !Completed(skillsetRequests, |skillsets|, createOrUpdate) ==>
        PhaseResult(r, |skillsets|, skillsetRequests, createOrUpdate, false)
      ensures && Completed(dataSourceRequests, |dataSources|, createOrUpdate) && Completed(indexRequests, |indexes|, createOrUpdate)
              && Completed(skillsetRequests, |skillsets|, createOrUpdate) ==>
        PhaseResult(r, |indexers|, indexerRequests, createOrUpdate, false)
    {
      indexRequests, skillsetRequests, indexerRequests := [], [], [];
      r, dataSourceRequests := MigrateDataSources(dataSources, createOrUpdate);
      if r.Err? {
        return;
      }
      r, indexRequests := MigrateCleanedArtifacts(Index, indexes, createOrUpdate);
      if r.Err? {
        return;
      }
      r, skillsetRequests := MigrateCleanedArtifacts(Skillset, skillsets, createOrUpdate);
      if r.Err? {
        return;
      }
      assert forall j :: 0 <= j < |indexers| ==> Configuration(indexers[j]) == configurationOf[j];
      r, indexerRequests := MigrateIndexers(indexers, configurationOf, configurations, createOrUpdate);
    }
  }
}
