/** Copying the manifest's blobs in data_plane/migrate-blobs.js: `copyBlobFile`'s
    existence checks and skip-if-exists decision, and `main`'s loop sorting each
    blob into successful, skipped or failed. */
module BlobCopy {
  import opened Wrappers
  import opened Text
  import opened BlobManifest

  // ---------------------------------------------------------------- storage

  /** A blob's address: its (lower-cased) container and its name. */
  datatype BlobKey = BlobKey(container: string, blob: string)

  /** A storage account as the copy sees it: its containers and each blob's size. */
  datatype Account = Account(containers: set<string>, blobs: map<BlobKey, nat>)

  /** Every blob lives in a container of the account. */
  predicate WellFormed(a: Account)
  {
    forall k :: k in a.blobs ==> k.container in a.containers
  }

  /** The service calls `copyBlobFile` makes, each of which may throw. */
  datatype Call =
    | SourceContainerExists(container: string)
    | EnsureDestContainer(container: string)  // `exists()` then `create()` on the destination
    | SourceBlobExists(key: BlobKey)
    | DestBlobExists(key: BlobKey)
    | CopyFromUrl(key: BlobKey)               // `beginCopyFromURL` and `pollUntilDone`
    | GetProperties(key: BlobKey)

  /** How the services behave: which calls throw, and with what; and, for a copy
      that throws, the size of the blob it leaves in the destination, if any. The
      service creates the destination blob when an asynchronous copy starts, so a
      copy that fails or is aborted, or whose polling throws, may leave one. */
  datatype Faults = Faults(thrown: Call -> Option<ServiceError>, leftByFailedCopy: BlobKey -> Option<nat>)

  /** `s.includes(sub)`. */
  predicate Contains(s: string, sub: string)
    decreases |s|
  {
    |sub| <= |s| && (s[..|sub|] == sub || Contains(s[1..], sub))
  }

  /** The container name the copy uses. */
  function NormalizedContainer(container: string): string
  {
    ToLower(container)
  }

  /** The blob a manifest entry names. */
  function BlobName(entityName: string): string
  {
    entityName + ".json"
  }

  function MissingContainerMessage(container: string): string
  {
    "Container '" + container + "' does not exist in source storage account"
  }

  function MissingBlobMessage(fileName: string, container: string): string
  {
    "Blob '" + fileName + "' does not exist in source container '" + container + "'"
  }

  function CopyFailedMessage(fileName: string, reason: string): string
  {
    "Failed to copy blob '" + fileName + "': " + reason
  }

  /** What `copyBlobFile` resolves to: the blob's size, and whether it was skipped. */
  datatype Copied = Copied(size: nat, skipped: bool)

  /** `copyBlobFile`: the outcome, and the destination account afterwards. The
      source container and blob must exist; the destination container is created
      when missing (a 409 from the service means it already exists); a blob already
      in the destination is skipped and reported with the destination's size;
      otherwise the blob is copied and reported with its copied size. */
  function CopyBlobFile(source: Account, dest: Account, faults: Faults, containerName: string, fileName: string)
    : (r: (Result<Copied, string>, Account))
    ensures Grows(dest, r.1)
    ensures r.1.containers <= dest.containers + {NormalizedContainer(containerName)}
    ensures r.0.Ok? ==> BlobKey(NormalizedContainer(containerName), fileName) in source.blobs
  {
    var container := NormalizedContainer(containerName);
    var key := BlobKey(container, fileName);
    if faults.thrown(SourceContainerExists(container)).Some? then
      var reason := faults.thrown(SourceContainerExists(container)).value.message;
      (Err(if Contains(reason, "does not exist") then reason else MissingContainerMessage(container) + ": " + reason), dest)
    else if container !in source.containers then
      (Err(MissingContainerMessage(container)), dest)
    else if faults.thrown(EnsureDestContainer(container)).Some? && faults.thrown(EnsureDestContainer(container)).value.statusCode != 409 then
      (Err(faults.thrown(EnsureDestContainer(container)).value.message), dest)
    else
      var withContainer := dest.(containers := dest.containers + {container});
      if faults.thrown(SourceBlobExists(key)).Some? then
        var reason := faults.thrown(SourceBlobExists(key)).value.message;
        (Err(if Contains(reason, "does not exist") then reason else "Error checking blob '" + fileName + "' in source: " + reason), withContainer)
      else if key !in source.blobs then
        (Err(MissingBlobMessage(fileName, container)), withContainer)
      else if faults.thrown(DestBlobExists(key)).Some? then
        (Err(CopyFailedMessage(fileName, faults.thrown(DestBlobExists(key)).value.message)), withContainer)
      else if key in dest.blobs then
        if faults.thrown(GetProperties(key)).Some? then
          (Err(CopyFailedMessage(fileName, faults.thrown(GetProperties(key)).value.message)), withContainer)
        else
          (Ok(Copied(dest.blobs[key], true)), withContainer)
      else if faults.thrown(CopyFromUrl(key)).Some? then
        var left := faults.leftByFailedCopy(key);
        (Err(CopyFailedMessage(fileName, faults.thrown(CopyFromUrl(key)).value.message)),
         if left.Some? then withContainer.(blobs := dest.blobs[key := left.value]) else withContainer)
      else
        var copied := withContainer.(blobs := dest.blobs[key := source.blobs[key]]);
        if faults.thrown(GetProperties(key)).Some? then
          (Err(CopyFailedMessage(fileName, faults.thrown(GetProperties(key)).value.message)), copied)
        else
          (Ok(Copied(source.blobs[key], false)), copied)
  }

  /** A skip issues no copy: the blob was already in the destination, its size is
      the destination's, and the destination is left as it was. */
  lemma SkipLeavesDestination(source: Account, dest: Account, faults: Faults, containerName: string, fileName: string, size: nat)
    requires WellFormed(dest)
    requires CopyBlobFile(source, dest, faults, containerName, fileName).0 == Ok(Copied(size, true))
    ensures var key := BlobKey(NormalizedContainer(containerName), fileName);
      key in dest.blobs && size == dest.blobs[key]
    ensures CopyBlobFile(source, dest, faults, containerName, fileName).1 == dest
  {
    var key := BlobKey(NormalizedContainer(containerName), fileName);
    assert key in dest.blobs;
    assert dest.containers + {key.container} == dest.containers;
  }

  /** A copy happens only for a blob the destination lacks, and puts exactly that
      blob there with the source's size. */
  lemma CopyAddsOnlyTheBlob(source: Account, dest: Account, faults: Faults, containerName: string, fileName: string)
    ensures var key := BlobKey(NormalizedContainer(containerName), fileName);
      var after := CopyBlobFile(source, dest, faults, containerName, fileName).1;
      || after.blobs == dest.blobs
      || (key !in dest.blobs && key in source.blobs && key in after.blobs && after.blobs == dest.blobs[key := after.blobs[key]])
    ensures var key := BlobKey(NormalizedContainer(containerName), fileName);
      var after := CopyBlobFile(source, dest, faults, containerName, fileName).1;
      key in after.blobs && key !in dest.blobs ==>
        || after.blobs[key] == source.blobs[key]
        || (faults.thrown(CopyFromUrl(key)).Some? && faults.leftByFailedCopy(key) == Some(after.blobs[key]))
    ensures var after := CopyBlobFile(source, dest, faults, containerName, fileName).1;
      dest.containers <= after.containers <= dest.containers + {NormalizedContainer(containerName)}
    ensures var key := BlobKey(NormalizedContainer(containerName), fileName);
      var (outcome, after) := CopyBlobFile(source, dest, faults, containerName, fileName);
      (outcome.Ok? && !outcome.value.skipped) <==>
        && key !in dest.blobs && key in source.blobs
        && faults.thrown(CopyFromUrl(key)).None? && faults.thrown(GetProperties(key)).None?
        && after.blobs == dest.blobs[key := source.blobs[key]]
    ensures var key := BlobKey(NormalizedContainer(containerName), fileName);
      var outcome := CopyBlobFile(source, dest, faults, containerName, fileName).0;
      outcome.Ok? ==> key in source.blobs && outcome.value.size == (if outcome.value.skipped then dest.blobs[key] else source.blobs[key])
  {
  }

  /** A copy keeps every blob inside a container of the destination. */
  lemma CopyKeepsWellFormed(source: Account, dest: Account, faults: Faults, containerName: string, fileName: string)
    requires WellFormed(dest)
    ensures WellFormed(CopyBlobFile(source, dest, faults, containerName, fileName).1)
  {
  }

  /** Container names are case-insensitive: two names equal once lower-cased
      address the same container. */
  lemma ContainerCaseIgnored(source: Account, dest: Account, faults: Faults, a: string, b: string, fileName: string)
    requires ToLower(a) == ToLower(b)
    ensures CopyBlobFile(source, dest, faults, a, fileName) == CopyBlobFile(source, dest, faults, b, fileName)
  {
  }

  // ---------------------------------------------------------------- the migration loop

  datatype SucceededBlob = SucceededBlob(name: string, container: string, size: nat)
  datatype SkippedBlob = SkippedBlob(name: string, container: string, size: nat, reason: string)
  datatype FailedBlob = FailedBlob(name: string, container: string, reason: string)

  /** `main`'s counters and lists. */
  datatype BlobReport = BlobReport(
    totalBlobsSize: nat,
    successCount: nat,
    failCount: nat,
    skippedCount: nat,
    successfulMigrations: seq<SucceededBlob>,
    failedMigrations: seq<FailedBlob>,
    skippedMigrations: seq<SkippedBlob>)

  const EmptyReport := BlobReport(0, 0, 0, 0, [], [], [])

  const SkipReason: string := "Already exists in destination"

  /** Sorting one blob's outcome into the report. */
  function Record(report: BlobReport, m: BlobMigration, outcome: Result<Copied, string>): (r: BlobReport)
    ensures r.successCount + r.failCount + r.skippedCount == report.successCount + report.failCount + report.skippedCount + 1
  {
    match outcome
    case Ok(Copied(size, true)) =>
      report.(skippedCount := report.skippedCount + 1,
              skippedMigrations := report.skippedMigrations + [SkippedBlob(m.entityName, m.container, size, SkipReason)])
    case Ok(Copied(size, false)) =>
      report.(totalBlobsSize := report.totalBlobsSize + size,
              successCount := report.successCount + 1,
              successfulMigrations := report.successfulMigrations + [SucceededBlob(m.entityName, m.container, size)])
    case Err(reason) =>
      report.(failCount := report.failCount + 1,
              failedMigrations := report.failedMigrations + [FailedBlob(m.entityName, m.container, reason)])
  }

  datatype RunState = RunState(report: BlobReport, dest: Account)

  /** One blob's turn of the loop. */
  function RunStep(state: RunState, source: Account, faults: Faults, m: BlobMigration): (r: RunState)
    ensures Grows(state.dest, r.dest)
  {
    var (outcome, dest) := CopyBlobFile(source, state.dest, faults, m.container, BlobName(m.entityName));
    RunState(Record(state.report, m, outcome), dest)
  }

  /** The report and the destination after the loop has handled `ms` in order. */
  function Run(ms: seq<BlobMigration>, source: Account, dest: Account, faults: Faults): (r: RunState)
    ensures r.report.successCount + r.report.failCount + r.report.skippedCount == |ms|
    ensures Grows(dest, r.dest)
  {
    if ms == [] then RunState(EmptyReport, dest)
    else RunStep(Run(ms[..|ms| - 1], source, dest, faults), source, faults, ms[|ms| - 1])
  }

  /** The outcome of the `i`th blob within a run. */
  function OutcomeAt(ms: seq<BlobMigration>, source: Account, dest: Account, faults: Faults, i: nat): Result<Copied, string>
    requires i < |ms|
  {
    CopyBlobFile(source, Run(ms[..i], source, dest, faults).dest, faults, ms[i].container, BlobName(ms[i].entityName)).0
  }

  function SumSizes(blobs: seq<SucceededBlob>): nat
  {
    if blobs == [] then 0 else SumSizes(blobs[..|blobs| - 1]) + blobs[|blobs| - 1].size
  }

  /** A well-formed report: the counters are the lengths of the lists, and the total
      size is that of the copied blobs only. */
  predicate Consistent(report: BlobReport)
  {
    && report.successCount == |report.successfulMigrations|
    && report.failCount == |report.failedMigrations|
    && report.skippedCount == |report.skippedMigrations|
    && report.totalBlobsSize == SumSizes(report.successfulMigrations)
  }

  lemma SumSizesSnoc(blobs: seq<SucceededBlob>, b: SucceededBlob)
    ensures SumSizes(blobs + [b]) == SumSizes(blobs) + b.size
  {
    assert (blobs + [b])[..|blobs|] == blobs;
  }

  /** Every blob lands in exactly one list, so the three counts add up to the
      number of blobs, and `totalBlobsSize` sums the copied blobs' sizes alone. */
  lemma {:induction false} RunCounts(ms: seq<BlobMigration>, source: Account, dest: Account, faults: Faults)
    ensures var r := Run(ms, source, dest, faults).report;
      && Consistent(r)
      && r.successCount + r.failCount + r.skippedCount == |ms|
  {
    if ms != [] {
      var init := ms[..|ms| - 1];
      RunCounts(init, source, dest, faults);
      var before := Run(init, source, dest, faults);
      var m := ms[|ms| - 1];
      var (outcome, _) := CopyBlobFile(source, before.dest, faults, m.container, BlobName(m.entityName));
      if outcome.Ok? && !outcome.value.skipped {
        SumSizesSnoc(before.report.successfulMigrations, SucceededBlob(m.entityName, m.container, outcome.value.size));
      }
    }
  }

  lemma RunPrefix(ms: seq<BlobMigration>, i: nat, source: Account, dest: Account, faults: Faults)
    requires i < |ms|
    ensures Run(ms[..i + 1], source, dest, faults) == RunStep(Run(ms[..i], source, dest, faults), source, faults, ms[i])
  {
    assert ms[..i + 1][..i] == ms[..i];
  }

  /** `main`'s loop: each blob is copied in turn and sorted into successful,
      skipped or failed. */
  method MigrateBlobs(blobMigrations: seq<BlobMigration>, source: Account, dest: Account, faults: Faults)
    returns (report: BlobReport, destAfter: Account)
    ensures RunState(report, destAfter) == Run(blobMigrations, source, dest, faults)
    ensures report.successCount + report.failCount + report.skippedCount == |blobMigrations|
    ensures Consistent(report)
  {
    var totalBlobsSize: nat := 0;
    var successCount: nat := 0;
    var failCount: nat := 0;
    var skippedCount: nat := 0;
    var successfulMigrations: seq<SucceededBlob> := [];
    var failedMigrations: seq<FailedBlob> := [];
    var skippedMigrations: seq<SkippedBlob> := [];
    destAfter := dest;
    for i := 0 to |blobMigrations|
      invariant RunState(BlobReport(totalBlobsSize, successCount, failCount, skippedCount,
                                    successfulMigrations, failedMigrations, skippedMigrations), destAfter)
        == Run(blobMigrations[..i], source, dest, faults)
    {
      var migration := blobMigrations[i];
      var fileName := BlobName(migration.entityName);
      RunPrefix(blobMigrations, i, source, dest, faults);
      var (result, destNext) := CopyBlobFile(source, destAfter, faults, migration.container, fileName);
      destAfter := destNext;
      match result {
        case Ok(copied) =>
          if copied.skipped {
            skippedCount := skippedCount + 1;
            skippedMigrations := skippedMigrations + [SkippedBlob(migration.entityName, migration.container, copied.size, SkipReason)];
          } else {
            totalBlobsSize := totalBlobsSize + copied.size;
            successCount := successCount + 1;
            successfulMigrations := successfulMigrations + [SucceededBlob(migration.entityName, migration.container, copied.size)];
          }
        case Err(reason) =>
          failCount := failCount + 1;
          failedMigrations := failedMigrations + [FailedBlob(migration.entityName, migration.container, reason)];
      }
    }
    assert blobMigrations[..|blobMigrations|] == blobMigrations;
    report := BlobReport(totalBlobsSize, successCount, failCount, skippedCount,
                         successfulMigrations, failedMigrations, skippedMigrations);
    RunCounts(blobMigrations, source, dest, faults);
  }

  // ---------------------------------------------------------------- running again

  /** The checks before the destination blob is looked at all pass for `m`: the
      source container exists and the destination container exists or is created. */
  predicate ReachesDestination(source: Account, faults: Faults, m: BlobMigration)
  {
    var container := NormalizedContainer(m.container);
    && faults.thrown(SourceContainerExists(container)).None? && container in source.containers
    && (faults.thrown(EnsureDestContainer(container)).None? || faults.thrown(EnsureDestContainer(container)).value.statusCode == 409)
  }

  /** Every check before the copy passes for `m`: should its blob be missing from
      the destination, a copy is started. */
  predicate ReachesCopy(source: Account, faults: Faults, m: BlobMigration)
  {
    var key := BlobKey(NormalizedContainer(m.container), BlobName(m.entityName));
    && ReachesDestination(source, faults, m)
    && faults.thrown(SourceBlobExists(key)).None? && key in source.blobs
    && faults.thrown(DestBlobExists(key)).None?
  }

  /** A copy started for `m` leaves a destination blob: it goes through, or it
      fails part-way and leaves the blob the service created. */
  predicate LeavesBlob(source: Account, faults: Faults, m: BlobMigration)
  {
    var key := BlobKey(NormalizedContainer(m.container), BlobName(m.entityName));
    ReachesCopy(source, faults, m) && (faults.thrown(CopyFromUrl(key)).None? || faults.leftByFailedCopy(key).Some?)
  }

  /** The destination `d` already holds whatever handling `m` would put there. */
  predicate Settled(d: Account, source: Account, faults: Faults, m: BlobMigration)
  {
    && (ReachesDestination(source, faults, m) ==> NormalizedContainer(m.container) in d.containers)
    && (LeavesBlob(source, faults, m) ==> BlobKey(NormalizedContainer(m.container), BlobName(m.entityName)) in d.blobs)
  }

  /** `b` has every container and every blob of `a`, blobs unchanged. */
  predicate Grows(a: Account, b: Account)
  {
    && a.containers <= b.containers
    && forall k :: k in a.blobs ==> k in b.blobs && b.blobs[k] == a.blobs[k]
  }

  /** The destination only gains containers and blobs during a run. */
  lemma {:induction false} RunGrows(ms: seq<BlobMigration>, j: nat, source: Account, dest: Account, faults: Faults)
    requires j <= |ms|
    ensures Grows(Run(ms[..j], source, dest, faults).dest, Run(ms, source, dest, faults).dest)
  {
    if j < |ms| {
      var init := ms[..|ms| - 1];
      assert ms[..j] == init[..j];
      RunGrows(init, j, source, dest, faults);
    } else {
      assert ms[..j] == ms;
    }
  }

  /** Once `m` has been handled, the destination stays settled for it. */
  lemma HandledIsSettled(ms: seq<BlobMigration>, i: nat, source: Account, dest: Account, faults: Faults)
    requires i < |ms|
    ensures Settled(Run(ms, source, dest, faults).dest, source, faults, ms[i])
  {
    RunPrefix(ms, i, source, dest, faults);
    StepSettles(Run(ms[..i], source, dest, faults).dest, source, faults, ms[i]);
    RunGrows(ms, i + 1, source, dest, faults);
    SettledGrows(Run(ms[..i + 1], source, dest, faults).dest, Run(ms, source, dest, faults).dest, source, faults, ms[i]);
  }

  /** Handling `m` leaves the destination settled for it. */
  lemma StepSettles(d: Account, source: Account, faults: Faults, m: BlobMigration)
    ensures Settled(CopyBlobFile(source, d, faults, m.container, BlobName(m.entityName)).1, source, faults, m)
  {
  }

  /** A destination that is settled for `m` stays so as it grows. */
  lemma SettledGrows(a: Account, b: Account, source: Account, faults: Faults, m: BlobMigration)
    requires Settled(a, source, faults, m) && Grows(a, b)
    ensures Settled(b, source, faults, m)
  {
  }

  /** Over a settled destination, handling `m` changes nothing and copies nothing. */
  lemma SettledStepIsQuiet(d: Account, source: Account, faults: Faults, m: BlobMigration)
    requires Settled(d, source, faults, m)
    ensures var (outcome, after) := CopyBlobFile(source, d, faults, m.container, BlobName(m.entityName));
      after == d && !(outcome.Ok? && !outcome.value.skipped)
  {
    var container := NormalizedContainer(m.container);
    if ReachesDestination(source, faults, m) {
      assert d.containers + {container} == d.containers;
    }
  }

  /** A run over a destination settled for all of its blobs changes nothing and
      copies nothing. */
  lemma {:induction false} RerunIsQuiet(ms: seq<BlobMigration>, source: Account, d: Account, faults: Faults)
    requires forall i :: 0 <= i < |ms| ==> Settled(d, source, faults, ms[i])
    ensures Run(ms, source, d, faults).dest == d
    ensures Run(ms, source, d, faults).report.successCount == 0
  {
    if ms != [] {
      RerunIsQuiet(ms[..|ms| - 1], source, d, faults);
      SettledStepIsQuiet(d, source, faults, ms[|ms| - 1]);
    }
  }

  /** Running the same manifest again against the destination a run left behind
      copies nothing and leaves the destination as it is: every blob is skipped
      or fails. */
  lemma RerunCopiesNothing(ms: seq<BlobMigration>, source: Account, dest: Account, faults: Faults)
    ensures var after := Run(ms, source, dest, faults).dest;
      var again := Run(ms, source, after, faults);
      && again.dest == after
      && again.report.successCount == 0
      && again.report.skippedCount + again.report.failCount == |ms|
  {
    var after := Run(ms, source, dest, faults).dest;
    forall i | 0 <= i < |ms|
      ensures Settled(after, source, faults, ms[i])
    {
      HandledIsSettled(ms, i, source, dest, faults);
    }
    RerunIsQuiet(ms, source, after, faults);
    RunCounts(ms, source, after, faults);
  }

  /** A blob copied or skipped by a run is skipped when the manifest is run again,
      and reported with the same size, provided the re-run's checks for it pass;
      the other service calls of the re-run may behave differently. */
  lemma RerunSkipsCompleted(ms: seq<BlobMigration>, i: nat, source: Account, dest: Account, faults: Faults, faults2: Faults)
    requires i < |ms|
    requires OutcomeAt(ms, source, dest, faults, i).Ok?
    requires var key := BlobKey(NormalizedContainer(ms[i].container), BlobName(ms[i].entityName));
      ReachesCopy(source, faults2, ms[i]) && faults2.thrown(GetProperties(key)).None?
    ensures var after := Run(ms, source, dest, faults).dest;
      OutcomeAt(ms, source, after, faults2, i) == Ok(Copied(OutcomeAt(ms, source, dest, faults, i).value.size, true))
  {
    var after := Run(ms, source, dest, faults).dest;
    var m := ms[i];
    var key := BlobKey(NormalizedContainer(m.container), BlobName(m.entityName));
    var before := Run(ms[..i], source, dest, faults).dest;
    var first := CopyBlobFile(source, before, faults, m.container, BlobName(m.entityName));
    SucceededCopyLeavesBlob(source, before, faults, m);
    RunPrefix(ms, i, source, dest, faults);
    RunGrows(ms, i + 1, source, dest, faults);
    assert key in after.blobs && after.blobs[key] == first.0.value.size;
    ExistingBlobIsSkipped(source, Run(ms[..i], source, after, faults2).dest, faults2, m);
  }

  /** A copy that succeeds passed every check, read the blob's properties, and left
      the blob in the destination with the size it reports. */
  lemma SucceededCopyLeavesBlob(source: Account, d: Account, faults: Faults, m: BlobMigration)
    requires CopyBlobFile(source, d, faults, m.container, BlobName(m.entityName)).0.Ok?
    ensures var key := BlobKey(NormalizedContainer(m.container), BlobName(m.entityName));
      var (outcome, after) := CopyBlobFile(source, d, faults, m.container, BlobName(m.entityName));
      && ReachesCopy(source, faults, m) && faults.thrown(GetProperties(key)).None?
      && key in after.blobs && after.blobs[key] == outcome.value.size
  {
  }

  /** Once every check passes, a blob already in the destination is skipped with
      the destination's size. */
  lemma ExistingBlobIsSkipped(source: Account, d: Account, faults: Faults, m: BlobMigration)
    requires var key := BlobKey(NormalizedContainer(m.container), BlobName(m.entityName));
      ReachesCopy(source, faults, m) && key in d.blobs && faults.thrown(GetProperties(key)).None?
    ensures var key := BlobKey(NormalizedContainer(m.container), BlobName(m.entityName));
      CopyBlobFile(source, d, faults, m.container, BlobName(m.entityName)).0 == Ok(Copied(d.blobs[key], true))
  {
  }

  /** A copy that throws after the service created the destination blob fails
      the blob, yet leaves the partial blob behind; every later attempt whose
      checks pass sees it and skips it, reporting the partial size. The skip
      checks existence only. */
  lemma AbortedCopyIsSkippedForGood(source: Account, dest: Account, faults: Faults, faults2: Faults, m: BlobMigration)
    requires var key := BlobKey(NormalizedContainer(m.container), BlobName(m.entityName));
      && key !in dest.blobs && ReachesCopy(source, faults, m)
      && faults.thrown(CopyFromUrl(key)).Some? && faults.leftByFailedCopy(key).Some?
    requires var key := BlobKey(NormalizedContainer(m.container), BlobName(m.entityName));
      ReachesCopy(source, faults2, m) && faults2.thrown(GetProperties(key)).None?
    ensures var key := BlobKey(NormalizedContainer(m.container), BlobName(m.entityName));
      var (outcome, after) := CopyBlobFile(source, dest, faults, m.container, BlobName(m.entityName));
      && outcome.Err?
      && key in after.blobs && after.blobs[key] == faults.leftByFailedCopy(key).value
      && CopyBlobFile(source, after, faults2, m.container, BlobName(m.entityName))
         == (Ok(Copied(faults.leftByFailedCopy(key).value, true)), after)
  {
    var key := BlobKey(NormalizedContainer(m.container), BlobName(m.entityName));
    var after := CopyBlobFile(source, dest, faults, m.container, BlobName(m.entityName)).1;
    assert after.containers + {key.container} == after.containers;
  }

  /** On a re-run against the destination a run left behind, every blob whose
      copy was started and left a destination blob (copied, or failed part-way)
      is skipped, whatever its first outcome was, provided the re-run's checks for
      it pass. */
  lemma RerunSkipsLeftBlobs(ms: seq<BlobMigration>, i: nat, source: Account, dest: Account, faults: Faults, faults2: Faults)
    requires i < |ms| && LeavesBlob(source, faults, ms[i])
    requires var key := BlobKey(NormalizedContainer(ms[i].container), BlobName(ms[i].entityName));
      ReachesCopy(source, faults2, ms[i]) && faults2.thrown(GetProperties(key)).None?
    ensures var after := Run(ms, source, dest, faults).dest;
      OutcomeAt(ms, source, after, faults2, i).Ok? && OutcomeAt(ms, source, after, faults2, i).value.skipped
  {
    var after := Run(ms, source, dest, faults).dest;
    HandledIsSettled(ms, i, source, dest, faults);
    ExistingBlobIsSkipped(source, Run(ms[..i], source, after, faults2).dest, faults2, ms[i]);
  }
}
