/** The sync job: a job row created RUNNING, the listing of the upstream
    tree, the reconciliation loop, the archival pass, and the transition of
    the job to SUCCESS with its counters or to FAILED with a log line.
    Writes made before a job-level failure stay in place: the run is not a
    transaction. */
module SyncJobs {
  import opened Wrappers
  import Accounts
  import opened Catalog
  import opened Normalizer
  import opened Reconciler

  datatype SyncStatus = Running | Succeeded | Failed

  datatype SyncJob = SyncJob(
    repo: string,
    status: SyncStatus,
    startedAt: Instant,
    finishedAt: Option<Instant>,
    importedCount: nat,
    updatedCount: nat,
    errorCount: nat,
    log: Option<string>)

  /** The persisted state a run reads and writes; a job's id is its position
      in `jobs`. */
  datatype World = World(catalog: Store, directory: Accounts.Directory, jobs: seq<SyncJob>)

  ghost predicate WorldValid(w: World) {
    Valid(w.catalog) && Accounts.Valid(w.directory)
  }

  /** What the branch, commit and recursive tree requests resolve to: the
      commit's sha and the tree entries. */
  datatype Listing = Listing(commitSha: string, nodes: seq<TreeNode>)

  /** Throws outside the per-path catch after the listing: from the archival
      `updateMany`, or from the update that marks the job SUCCESS. */
  datatype Faults = Faults(archive: Option<Thrown>, finish: Option<Thrown>)

  const NoFaults := Faults(None, None)

  /** The value the run returns to its caller; `scanned` is not persisted. */
  datatype SyncReport = SyncReport(jobId: nat, importedCount: nat, updatedCount: nat, errorCount: nat, scanned: nat)

  /** The state after a run, its result (a report, or the error re-thrown),
      and the run's touched set, which the source keeps in a local variable. */
  datatype SyncRun = SyncRun(world: World, result: Result<SyncReport, Thrown>, touched: set<string>)

  /** The log line of a failed job. */
  function LogOf(e: Thrown): (log: string)
    ensures e.ErrorObject? ==> log == e.message
    ensures e.NonErrorValue? ==> log == "Unknown sync error"
  {
    match e
    case ErrorObject(m) => m
    case NonErrorValue => "Unknown sync error"
  }

  function Begin(now: Instant): SyncJob {
    SyncJob(Repo, Running, now, None, 0, 0, 0, None)
  }

  /** The `catch` of the run: the RUNNING job becomes FAILED with a finish
      time and a log line; its counters keep their initial zeros. */
  function FailRun(catalog: Store, directory: Accounts.Directory, jobs: seq<SyncJob>, now: Instant,
                   e: Thrown, touched: set<string>): SyncRun
  {
    var job := Begin(now).(status := Failed, finishedAt := Some(now), log := Some(LogOf(e)));
    SyncRun(World(catalog, directory, jobs + [job]), Failure(e), touched)
  }

  /** `syncComposioSkills`. The job row is appended RUNNING and always ends
      terminal. Without a job-level throw the run succeeds whatever happened
      to single paths, and the job holds the run's counters. A listing
      failure writes no skill and no user. After the loop, the archival pass
      runs over the loop's catalogue with the loop's touched set: every synced
      row of the repository whose path was not touched (not listed, or listed
      but errored) ends ARCHIVED, and every other row keeps its status. */
  function RunSync(w: World, listing: Result<Listing, Thrown>, read: Reader, svc: Services, faults: Faults)
    : (r: SyncRun)
    requires WorldValid(w)
    ensures WorldValid(r.world)
    ensures |r.world.jobs| == |w.jobs| + 1 && r.world.jobs[..|w.jobs|] == w.jobs
    ensures var job := r.world.jobs[|w.jobs|];
      && job.repo == Repo && job.startedAt == svc.now
      && job.status != Running && job.finishedAt == Some(svc.now)
      && (job.status == Succeeded <==> r.result.Success?)
      && (r.result.Success? ==>
            && job.log == None
            && r.result.value.jobId == |w.jobs|
            && r.result.value.importedCount == job.importedCount
            && r.result.value.updatedCount == job.updatedCount
            && r.result.value.errorCount == job.errorCount)
      && (r.result.Failure? ==>
            job.log == Some(LogOf(r.result.error)) && job.importedCount == job.updatedCount == job.errorCount == 0)
    ensures listing.Failure? ==>
      && r.result == Failure(listing.error)
      && r.world.catalog == w.catalog && r.world.directory == w.directory
      && r.touched == {}
    ensures listing.Success? ==>
      var paths := SkillPaths(listing.value.nodes);
      && (forall p :: p in r.touched ==> p in paths)
      && (r.result.Success? ==>
            && r.result.value.scanned == |paths|
            && r.result.value.importedCount + r.result.value.updatedCount + r.result.value.errorCount <= |paths|
            && (r.result.value.errorCount == 0 ==> forall p :: p in paths ==> p in r.touched))
    ensures listing.Success? && faults == NoFaults ==> r.result.Success?
    ensures listing.Success? && faults.archive.Some? ==> r.result == Failure(faults.archive.value)
    ensures listing.Success? && faults.archive.None? && faults.finish.Some? ==> r.result == Failure(faults.finish.value)
    ensures listing.Success? && faults.archive.None? ==>
      forall id :: id in r.world.catalog.records && r.world.catalog.records[id].sourcePath.Some? &&
        r.world.catalog.records[id].sourcePath.value !in SkillPaths(listing.value.nodes) &&
        r.world.catalog.records[id].sourceRepo == Some(Repo) && r.world.catalog.records[id].sourceType == GithubSync
        ==> r.world.catalog.records[id].status == Archived
    ensures listing.Success? ==>
      var t := ReconcileAll(read, svc, listing.value.commitSha, Start(w.catalog, w.directory),
                            SkillPaths(listing.value.nodes));
      && r.touched == t.touched
      && r.world.directory == t.directory
      && r.world.catalog.versions == w.catalog.versions
      && (faults.archive.Some? ==> r.world.catalog == t.store)
      && (faults.archive.None? ==> r.world.catalog == Archive(t.store, Repo, t.touched))
      && (r.result.Success? ==>
            r.result.value.importedCount == t.imported && r.result.value.updatedCount == t.updated &&
            r.result.value.errorCount == t.errored)
  {
    match listing
    case Failure(e) => FailRun(w.catalog, w.directory, w.jobs, svc.now, e, {})
    case Success(l) =>
      var paths := SkillPaths(l.nodes);
      var t := ReconcileAll(read, svc, l.commitSha, Start(w.catalog, w.directory), paths);
      match faults.archive
      case Some(e) => FailRun(t.store, t.directory, w.jobs, svc.now, e, t.touched)
      case None =>
        var archived := Archive(t.store, Repo, t.touched);
        ArchivePreservesValid(t.store, Repo, t.touched);
        match faults.finish
        case Some(e) => FailRun(archived, t.directory, w.jobs, svc.now, e, t.touched)
        case None =>
          var job := SyncJob(Repo, Succeeded, svc.now, Some(svc.now), t.imported, t.updated, t.errored, None);
          SyncRun(World(archived, t.directory, w.jobs + [job]),
                  Success(SyncReport(|w.jobs|, t.imported, t.updated, t.errored, |paths|)), t.touched)
  }
}

module SyncJobsProperties {
  import opened Wrappers
  import Accounts
  import opened Catalog
  import opened Normalizer
  import opened Reconciler
  import opened SyncJobs

  /** The second pass of a sync is a no-op: after a loop in which nothing
      errored and the archival that follows it, a loop over the same paths
      with the same documents and hash writes nothing, counts no import,
      update or error, and touches the same paths. */
  lemma SecondPassIsNoop(read: Reader, svc: Services, svc': Services, sha: string, sha': string,
                         c: Store, d: Accounts.Directory, paths: seq<string>, t1: Tally)
    requires Valid(c) && Accounts.Valid(d)
    requires svc'.hash == svc.hash
    requires t1 == ReconcileAll(read, svc, sha, Start(c, d), paths) && t1.errored == 0
    ensures var a := Archive(t1.store, Repo, t1.touched);
      && Valid(a) && Accounts.Valid(t1.directory)
      && var t2 := ReconcileAll(read, svc', sha', Start(a, t1.directory), paths);
      && t2.store == a && t2.directory == t1.directory
      && t2.imported == 0 && t2.updated == 0 && t2.errored == 0
      && t2.touched == t1.touched
  {
    var a := Archive(t1.store, Repo, t1.touched);
    ArchivePreservesValid(t1.store, Repo, t1.touched);
    PassSyncsAll(read, svc, sha, c, d, paths, t1);
    InSyncLoopIsNoop(read, svc', sha', Start(a, t1.directory), paths);
    var t2 := ReconcileAll(read, svc', sha', Start(a, t1.directory), paths);
    assert forall p :: p in t2.touched <==> p in paths;
  }

  /** After an error-free pass every scanned path is touched and, archival
      included, in sync. */
  lemma PassSyncsAll(read: Reader, svc: Services, sha: string, c: Store, d: Accounts.Directory,
                     paths: seq<string>, t1: Tally)
    requires Valid(c) && Accounts.Valid(d)
    requires t1 == ReconcileAll(read, svc, sha, Start(c, d), paths) && t1.errored == 0
    ensures forall p :: p in t1.touched <==> p in paths
    ensures forall p :: p in paths ==> InSync(read, svc.hash, Archive(t1.store, Repo, t1.touched), p)
  {
    ErrorFreeLoopSyncsAll(read, svc, sha, Start(c, d), paths);
    forall p | p in paths ensures InSync(read, svc.hash, Archive(t1.store, Repo, t1.touched), p) {
      ArchiveKeepsSync(read, svc.hash, t1.store, Repo, t1.touched, p);
    }
  }

  /** Idempotence: after a run that succeeded with no error, a second run
      over the same scanned paths, the same documents and the same hash
      creates nothing, updates nothing, errs nowhere, touches the same paths
      and leaves the catalog and the user table exactly as they were. */
  lemma RunSyncIdempotent(w: World, l: Listing, l': Listing, read: Reader, svc: Services, svc': Services)
    requires WorldValid(w)
    requires SkillPaths(l'.nodes) == SkillPaths(l.nodes)
    requires svc'.hash == svc.hash
    requires var first := RunSync(w, Success(l), read, svc, NoFaults);
      first.result.Success? && first.result.value.errorCount == 0
    ensures var first := RunSync(w, Success(l), read, svc, NoFaults);
      var second := RunSync(first.world, Success(l'), read, svc', NoFaults);
      && second.result.Success?
      && second.result.value.importedCount == 0
      && second.result.value.updatedCount == 0
      && second.result.value.errorCount == 0
      && second.touched == first.touched
      && second.world.catalog == first.world.catalog
      && second.world.directory == first.world.directory
  {
    var paths := SkillPaths(l.nodes);
    var t1 := ReconcileAll(read, svc, l.commitSha, Start(w.catalog, w.directory), paths);
    var first := RunSync(w, Success(l), read, svc, NoFaults);
    assert first.world.catalog == Archive(t1.store, Repo, t1.touched) && first.world.directory == t1.directory;
    assert first.touched == t1.touched;
    SecondPassIsNoop(read, svc, svc', l.commitSha, l'.commitSha, w.catalog, w.directory, paths, t1);
    ArchiveIdempotent(t1.store, Repo, t1.touched);
  }

  /** With distinct scanned paths (a tree lists each path once), every path
      of a successful run is either touched or counted as an error. */
  lemma RunSyncCountsEveryPath(w: World, l: Listing, read: Reader, svc: Services, faults: Faults)
    requires WorldValid(w)
    requires Distinct(SkillPaths(l.nodes))
    requires RunSync(w, Success(l), read, svc, faults).result.Success?
    ensures var r := RunSync(w, Success(l), read, svc, faults);
      |r.touched| + r.result.value.errorCount == r.result.value.scanned
  {
    TouchedPlusErroredIsScanned(read, svc, l.commitSha, Start(w.catalog, w.directory), SkillPaths(l.nodes));
  }

  /** A run, successful or not, leaves every row that is not sourced from
      the synced repository (every user-authored skill among them) as it was. */
  lemma RunSyncKeepsForeignRows(w: World, listing: Result<Listing, Thrown>, read: Reader, svc: Services,
                                faults: Faults, id: SkillId)
    requires WorldValid(w)
    requires id in w.catalog.records && w.catalog.records[id].sourceRepo != Some(Repo)
    ensures var r := RunSync(w, listing, read, svc, faults);
      id in r.world.catalog.records && r.world.catalog.records[id] == w.catalog.records[id]
  {
    if listing.Success? {
      var paths := SkillPaths(listing.value.nodes);
      var t := ReconcileAll(read, svc, listing.value.commitSha, Start(w.catalog, w.directory), paths);
      ReconcileAllKeepsForeignRows(read, svc, listing.value.commitSha, Start(w.catalog, w.directory), paths, id);
      if faults.archive.None? {
        ArchiveScope(t.store, Repo, t.touched, id);
        assert RunSync(w, listing, read, svc, faults).world.catalog == Archive(t.store, Repo, t.touched);
      } else {
        assert RunSync(w, listing, read, svc, faults).world.catalog == t.store;
      }
    }
  }

  /** Terminal jobs are never rewritten: a later run only appends its own
      job row. */
  lemma RunSyncKeepsEarlierJobs(w: World, listing: Result<Listing, Thrown>, read: Reader, svc: Services,
                                faults: Faults, j: nat)
    requires WorldValid(w)
    requires j < |w.jobs|
    ensures RunSync(w, listing, read, svc, faults).world.jobs[j] == w.jobs[j]
  {
    var r := RunSync(w, listing, read, svc, faults);
    assert r.world.jobs[..|w.jobs|][j] == w.jobs[j];
  }
}
