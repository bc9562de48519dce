/** The per-path reconciliation of a catalog sync and the fold of it over the
    scanned paths. Each path is matched to the catalog by its source identity
    (repository, path) and classified by content hash alone: create, update,
    or leave alone. A failure for one path is caught, counted, and keeps the
    path out of the touched set; the run goes on with the next path. */
module Reconciler {
  import opened Wrappers
  import opened Text
  import Accounts
  import opened Catalog
  import opened Normalizer

  /** The collaborators of one run that the model does not interpret: the
      SHA-256 hex digest, `makeSlug`, the random hex suffix drawn when a path
      is created, the configured system e-mail, the id the database would give
      a new user, and the clock. */
  datatype Services = Services(
    hash: string -> string,
    slugify: string -> string,
    suffix: string -> string,
    systemEmail: Option<string>,
    freshUserId: Accounts.UserId,
    now: Instant)

  /** The raw fetch of a path followed by front-matter parsing; either may
      throw. */
  type Reader = string -> Result<FrontMatterDoc, Thrown>

  /** The source identity of an upstream path. */
  function KeyOf(path: string): SourceKey {
    SourceKey(Repo, path)
  }

  /** The slug stem of a new skill: the title's slug, or the slug of the
      path's title when the title slugs to nothing. */
  function StableSlug(slugify: string -> string, title: string, path: string): (stem: string)
    ensures slugify(title) != "" ==> stem == slugify(title)
    ensures slugify(title) == "" ==> stem == slugify(PathTitle(path))
  {
    var base := slugify(title);
    if base != "" then base else slugify(PathTitle(path))
  }

  function GithubUrl(path: string): string {
    "https://github.com/" + Repo + "/blob/" + DefaultBranch + "/" + path
  }

  /** The row a sync creates for a new upstream path. */
  function NewSyncedRecord(d: SkillDocument, contentHash: string, slug: string, authorId: string, now: Instant)
    : SkillRecord
  {
    SkillRecord(
      slug := slug, title := d.title, description := d.description, content := d.content,
      category := d.category, tags := d.tags, compatibility := d.compatibility,
      sourceType := GithubSync, sourceRepo := Some(Repo), sourcePath := Some(d.sourcePath),
      sourceSha := Some(d.sourceSha), contentHash := Some(contentHash),
      githubUrl := Some(GithubUrl(d.sourcePath)),
      status := Published, isPublic := true, publishedAt := Some(now), authorId := authorId)
  }

  /** The fields a sync rewrites on a changed document; the slug, source
      identity, author, visibility and publish time are kept. */
  function SyncUpdate(existing: SkillRecord, d: SkillDocument, contentHash: string): SkillRecord {
    existing.(
      title := d.title, description := d.description, content := d.content,
      category := d.category, tags := d.tags, compatibility := d.compatibility,
      sourceSha := Some(d.sourceSha), contentHash := Some(contentHash), status := Published)
  }

  datatype PathOutcome = Created(id: SkillId) | Updated(id: SkillId) | Unchanged(id: SkillId) | Errored

  datatype Step = Step(outcome: PathOutcome, store: Store, directory: Accounts.Directory)

  /** The normalised document of a path that was read. */
  function DocOf(read: Reader, sha: string, path: string): SkillDocument
    requires read(path).Success?
  {
    NormalizeSkill(path, read(path).value, sha)
  }

  /** The content hash of a path that was read. */
  function HashOf(read: Reader, svc: Services, sha: string, path: string): string
    requires read(path).Success?
  {
    svc.hash(DocOf(read, sha, path).content)
  }

  /** The slug a new row for a path that was read gets: the slug stem, a
      dash, and the random suffix. */
  function NewPathSlug(read: Reader, svc: Services, sha: string, path: string): string
    requires read(path).Success?
  {
    StableSlug(svc.slugify, DocOf(read, sha, path).title, path) + "-" + svc.suffix(path)
  }

  /** What an iteration does with a path that was read and that no row has
      as its source identity: the system author is looked up (or created)
      first, and its failure is the path's error; then the row is created,
      owned by that author, unless its slug is taken, which is also an
      error. */
  ghost predicate CreatesNewPath(read: Reader, svc: Services, sha: string, c: Store, d: Accounts.Directory,
                                 path: string, r: Step)
    requires Accounts.Valid(d) && read(path).Success?
  {
    var author := Accounts.GetOrCreateSystemAuthor(d, svc.systemEmail, svc.freshUserId);
    && (author.Failure? ==> r == Step(Errored, c, d))
    && (author.Success? ==> r.directory == author.value.directory)
    && (r.outcome.Created? <==> author.Success? && !SlugTaken(c, NewPathSlug(read, svc, sha, path)))
    && (r.outcome.Created? ==>
          && r.outcome.id in r.store.records
          && r.store.records[r.outcome.id]
             == NewSyncedRecord(DocOf(read, sha, path), HashOf(read, svc, sha, path), NewPathSlug(read, svc, sha, path),
                                author.value.id, svc.now))
  }

  /** The create branch of an iteration: the system author is looked up
      (or created) first, and its failure is an error; then the row is
      inserted under that author unless its slug is taken, which is also an
      error. A failed create keeps the catalog as it was. */
  function CreateSynced(svc: Services, c: Store, d: Accounts.Directory, n: SkillDocument, h: string, slug: string)
    : (r: Step)
    requires Valid(c) && Accounts.Valid(d)
    requires FindBySource(c, KeyOf(n.sourcePath)).None?
    ensures Valid(r.store) && Accounts.Valid(r.directory) && r.store.versions == c.versions
    ensures r.outcome.Created? || r.outcome.Errored?
    ensures r.outcome.Errored? ==> r.store == c
    ensures var author := Accounts.GetOrCreateSystemAuthor(d, svc.systemEmail, svc.freshUserId);
      && (author.Failure? ==> r == Step(Errored, c, d))
      && (author.Success? ==> r.directory == author.value.directory)
      && (r.outcome.Created? <==> author.Success? && !SlugTaken(c, slug))
      && (r.outcome.Created? ==>
            && r.outcome.id !in c.records
            && r.store.records == c.records[r.outcome.id := NewSyncedRecord(n, h, slug, author.value.id, svc.now)])
  {
    match Accounts.GetOrCreateSystemAuthor(d, svc.systemEmail, svc.freshUserId)
    case Failure(_) => Step(Errored, c, d)
    case Success(author) =>
      if SlugTaken(c, slug) then Step(Errored, c, author.directory)
      else
        var ins := Insert(c, NewSyncedRecord(n, h, slug, author.id, svc.now));
        Step(Created(ins.id), ins.store, author.directory)
  }

  /** One iteration of the sync loop. Exactly one of four things happens:
      an error that leaves the catalog as it was; a create when no row has the
      path's source identity; an update when the stored hash differs from the
      new one; nothing when the hashes are equal. */
  function ReconcilePath(read: Reader, svc: Services, sha: string, c: Store, d: Accounts.Directory, path: string)
    : (r: Step)
    requires Valid(c) && Accounts.Valid(d)
    ensures Valid(r.store) && Accounts.Valid(r.directory)
    ensures r.store.versions == c.versions
    ensures r.outcome.Errored? ==> r.store == c
    ensures read(path).Failure? ==> r == Step(Errored, c, d)
    ensures r.outcome.Created? ==>
      && read(path).Success?
      && FindBySource(c, KeyOf(path)).None?
      && r.outcome.id !in c.records
      && r.store.records.Keys == c.records.Keys + {r.outcome.id}
      && r.store.records == c.records[r.outcome.id := r.store.records[r.outcome.id]]
    ensures read(path).Success? && FindBySource(c, KeyOf(path)).None? ==> CreatesNewPath(read, svc, sha, c, d, path, r)
    ensures r.outcome.Updated? ==>
      && read(path).Success?
      && FindBySource(c, KeyOf(path)) == Some(r.outcome.id)
      && c.records[r.outcome.id].contentHash != Some(HashOf(read, svc, sha, path))
      && r.store.records == c.records[r.outcome.id := SyncUpdate(c.records[r.outcome.id], DocOf(read, sha, path),
                                                                   HashOf(read, svc, sha, path))]
      && r.directory == d
    ensures r.outcome.Unchanged? ==>
      && read(path).Success?
      && FindBySource(c, KeyOf(path)) == Some(r.outcome.id)
      && c.records[r.outcome.id].contentHash == Some(HashOf(read, svc, sha, path))
      && r.store == c && r.directory == d
    ensures read(path).Success? && FindBySource(c, KeyOf(path)).Some? ==> !r.outcome.Errored? && !r.outcome.Created?
  {
    match read(path)
    case Failure(_) => Step(Errored, c, d)
    case Success(doc) =>
      var n := NormalizeSkill(path, doc, sha);
      var h := svc.hash(n.content);
      var stem := StableSlug(svc.slugify, n.title, path);
      match FindBySource(c, KeyOf(path))
      case None => CreateSynced(svc, c, d, n, h, stem + "-" + svc.suffix(path))
      case Some(id) =>
        if c.records[id].contentHash != Some(h) then
          var rec := SyncUpdate(c.records[id], n, h);
          Step(Updated(id), Replace(c, id, rec), d)
        else
          Step(Unchanged(id), c, d)
  }

  /** The loop's running state: the catalog and user table, the touched
      paths, and the counters (`noops` is not persisted by the source;
      it makes the outcome count exact). */
  datatype Tally = Tally(
    store: Store,
    directory: Accounts.Directory,
    touched: set<string>,
    imported: nat,
    updated: nat,
    noops: nat,
    errored: nat)

  /** Fold one path's outcome into the running state. */
  function Record(t: Tally, path: string, s: Step): (r: Tally)
    ensures r.store == s.store && r.directory == s.directory
    ensures s.outcome.Errored? ==> r.touched == t.touched && r.errored == t.errored + 1
    ensures !s.outcome.Errored? ==> r.touched == t.touched + {path} && r.errored == t.errored
    ensures r.imported == t.imported + (if s.outcome.Created? then 1 else 0)
    ensures r.updated == t.updated + (if s.outcome.Updated? then 1 else 0)
    ensures r.noops == t.noops + (if s.outcome.Unchanged? then 1 else 0)
  {
    match s.outcome
    case Errored => t.(store := s.store, directory := s.directory, errored := t.errored + 1)
    case Created(_) => t.(store := s.store, directory := s.directory, touched := t.touched + {path}, imported := t.imported + 1)
    case Updated(_) => t.(store := s.store, directory := s.directory, touched := t.touched + {path}, updated := t.updated + 1)
    case Unchanged(_) => t.(store := s.store, directory := s.directory, touched := t.touched + {path}, noops := t.noops + 1)
  }

  function Start(c: Store, d: Accounts.Directory): Tally {
    Tally(c, d, {}, 0, 0, 0, 0)
  }

  /** The sync loop over the scanned paths, in order. The counters account
      for every path exactly once; the catalog grows by exactly one row per
      import; only paths of this run join the touched set, and when nothing
      errored every path did. */
  function ReconcileAll(read: Reader, svc: Services, sha: string, t: Tally, paths: seq<string>): (r: Tally)
    requires Valid(t.store) && Accounts.Valid(t.directory)
    ensures Valid(r.store) && Accounts.Valid(r.directory)
    ensures r.store.versions == t.store.versions
    ensures r.imported >= t.imported && r.updated >= t.updated && r.noops >= t.noops && r.errored >= t.errored
    ensures (r.imported - t.imported) + (r.updated - t.updated) + (r.noops - t.noops) + (r.errored - t.errored)
            == |paths|
    ensures t.store.records.Keys <= r.store.records.Keys
    ensures |r.store.records| == |t.store.records| + (r.imported - t.imported)
    ensures t.touched <= r.touched
    ensures forall p :: p in r.touched ==> p in t.touched || p in paths
    ensures r.errored == t.errored ==> forall p :: p in paths ==> p in r.touched
    decreases |paths|
  {
    if |paths| == 0 then t
    else
      var s := ReconcilePath(read, svc, sha, t.store, t.directory, paths[0]);
      var t' := Record(t, paths[0], s);
      ReconcileAll(read, svc, sha, t', paths[1..])
  }

  /** Paths are distinct (a Git tree lists each path once). */
  predicate Distinct(paths: seq<string>) {
    forall i, j :: 0 <= i < j < |paths| ==> paths[i] != paths[j]
  }

  /** A path new to the touched set is counted once: as touched or as an
      error. */
  lemma RecordCountsOnce(t: Tally, path: string, s: Step)
    requires path !in t.touched
    ensures |Record(t, path, s).touched| + Record(t, path, s).errored == |t.touched| + t.errored + 1
  {
  }

  /** The rest of a list of distinct, untouched paths stays distinct and
      untouched once its first path joins the touched set. */
  lemma DistinctTail(paths: seq<string>, touched: set<string>, touched': set<string>)
    requires |paths| > 0 && Distinct(paths)
    requires forall i :: 0 <= i < |paths| ==> paths[i] !in touched
    requires touched' <= touched + {paths[0]}
    ensures Distinct(paths[1..])
    ensures forall i :: 0 <= i < |paths[1..]| ==> paths[1..][i] !in touched'
  {
    assert forall i :: 1 <= i < |paths| ==> paths[i] == paths[1..][i - 1];
  }

  /** With distinct paths, each scanned path is either touched or counted as
      an error, never both: touched + errored = scanned. */
  lemma {:induction false} TouchedPlusErroredIsScanned(read: Reader, svc: Services, sha: string, t: Tally, paths: seq<string>)
    requires Valid(t.store) && Accounts.Valid(t.directory)
    requires Distinct(paths)
    requires forall i :: 0 <= i < |paths| ==> paths[i] !in t.touched
    ensures var r := ReconcileAll(read, svc, sha, t, paths);
      |r.touched| + (r.errored - t.errored) == |t.touched| + |paths|
    decreases |paths|
  {
    if |paths| > 0 {
      var s := ReconcilePath(read, svc, sha, t.store, t.directory, paths[0]);
      var t' := Record(t, paths[0], s);
      RecordCountsOnce(t, paths[0], s);
      DistinctTail(paths, t.touched, t'.touched);
      TouchedPlusErroredIsScanned(read, svc, sha, t', paths[1..]);
      UnfoldReconcileAll(read, svc, sha, t, paths);
    }
  }

  /** The catalog already holds `path`'s current content: the path reads,
      a row has its source identity, and that row's hash is the hash of the
      trimmed body. */
  ghost predicate InSync(read: Reader, hash: string -> string, c: Store, path: string) {
    && Valid(c)
    && read(path).Success?
    && FindBySource(c, KeyOf(path)).Some?
    && c.records[FindBySource(c, KeyOf(path)).value].contentHash == Some(hash(Trim(read(path).value.body)))
  }

  /** One iteration never breaks another path's synchronisation. */
  lemma ReconcilePathKeepsSync(read: Reader, svc: Services, sha: string, c: Store, d: Accounts.Directory,
                               path: string, q: string)
    requires Valid(c) && Accounts.Valid(d)
    requires InSync(read, svc.hash, c, q)
    ensures InSync(read, svc.hash, ReconcilePath(read, svc, sha, c, d, path).store, q)
  {
    var s := ReconcilePath(read, svc, sha, c, d, path);
    if q != path {
      var id := FindBySource(c, KeyOf(q)).value;
      if s.outcome.Created? {
        assert id != s.outcome.id;
      } else if s.outcome.Updated? {
        assert SourceOf(c.records[s.outcome.id]) == Some(KeyOf(path));
      }
      assert s.store.records[id] == c.records[id];
      assert FindBySource(s.store, KeyOf(q)) == Some(id);
    }
  }

  /** A path whose iteration does not error is synchronised afterwards. */
  lemma ReconcilePathSyncsPath(read: Reader, svc: Services, sha: string, c: Store, d: Accounts.Directory,
                               path: string)
    requires Valid(c) && Accounts.Valid(d)
    ensures var s := ReconcilePath(read, svc, sha, c, d, path);
      !s.outcome.Errored? ==> InSync(read, svc.hash, s.store, path)
  {
    var s := ReconcilePath(read, svc, sha, c, d, path);
    if !s.outcome.Errored? {
      var id := s.outcome.id;
      assert SourceOf(s.store.records[id]) == Some(KeyOf(path));
      assert FindBySource(s.store, KeyOf(path)) == Some(id);
    }
  }

  /** Synchronisation of a path survives the rest of the loop. */
  lemma {:induction false} ReconcileAllKeepsSync(read: Reader, svc: Services, sha: string, t: Tally,
                                                 paths: seq<string>, q: string)
    requires Valid(t.store) && Accounts.Valid(t.directory)
    requires InSync(read, svc.hash, t.store, q)
    ensures InSync(read, svc.hash, ReconcileAll(read, svc, sha, t, paths).store, q)
    decreases |paths|
  {
    if |paths| > 0 {
      var s := ReconcilePath(read, svc, sha, t.store, t.directory, paths[0]);
      ReconcilePathKeepsSync(read, svc, sha, t.store, t.directory, paths[0], q);
      ReconcileAllKeepsSync(read, svc, sha, Record(t, paths[0], s), paths[1..], q);
    }
  }

  /** A loop in which nothing errored leaves every scanned path in sync. */
  lemma {:induction false} ErrorFreeLoopSyncsAll(read: Reader, svc: Services, sha: string, t: Tally, paths: seq<string>)
    requires Valid(t.store) && Accounts.Valid(t.directory)
    requires ReconcileAll(read, svc, sha, t, paths).errored == t.errored
    ensures forall p :: p in paths ==> InSync(read, svc.hash, ReconcileAll(read, svc, sha, t, paths).store, p)
    decreases |paths|
  {
    if |paths| > 0 {
      var s := ReconcilePath(read, svc, sha, t.store, t.directory, paths[0]);
      var t' := Record(t, paths[0], s);
      UnfoldReconcileAll(read, svc, sha, t, paths);
      assert t'.errored == t.errored;
      ReconcilePathSyncsPath(read, svc, sha, t.store, t.directory, paths[0]);
      ReconcileAllKeepsSync(read, svc, sha, t', paths[1..], paths[0]);
      ErrorFreeLoopSyncsAll(read, svc, sha, t', paths[1..]);
      assert forall p :: p in paths ==> p == paths[0] || p in paths[1..];
    }
  }

  lemma UnfoldReconcileAll(read: Reader, svc: Services, sha: string, t: Tally, paths: seq<string>)
    requires Valid(t.store) && Accounts.Valid(t.directory)
    requires |paths| > 0
    ensures ReconcileAll(read, svc, sha, t, paths)
         == ReconcileAll(read, svc, sha, Record(t, paths[0], ReconcilePath(read, svc, sha, t.store, t.directory, paths[0])), paths[1..])
  {
  }

  /** One iteration on a path that is in sync is a no-op counted as such. */
  lemma InSyncStepIsNoop(read: Reader, svc: Services, sha: string, t: Tally, path: string)
    requires Valid(t.store) && Accounts.Valid(t.directory)
    requires InSync(read, svc.hash, t.store, path)
    ensures Record(t, path, ReconcilePath(read, svc, sha, t.store, t.directory, path))
         == t.(touched := t.touched + {path}, noops := t.noops + 1)
  {
    var s := ReconcilePath(read, svc, sha, t.store, t.directory, path);
    assert s.outcome.Unchanged?;
  }

  /** When every scanned path is already in sync the loop writes nothing:
      no import, no update, no error, and the catalog and the user table are
      unchanged (so, by the fold's contract, every path is touched and counted
      as a no-op). */
  lemma {:induction false} InSyncLoopIsNoop(read: Reader, svc: Services, sha: string, t: Tally, paths: seq<string>)
    requires Valid(t.store) && Accounts.Valid(t.directory)
    requires forall p :: p in paths ==> InSync(read, svc.hash, t.store, p)
    ensures var r := ReconcileAll(read, svc, sha, t, paths);
      && r.store == t.store && r.directory == t.directory
      && r.imported == t.imported && r.updated == t.updated && r.errored == t.errored
    decreases |paths|
  {
    if |paths| > 0 {
      InSyncStepIsNoop(read, svc, sha, t, paths[0]);
      var t' := Record(t, paths[0], ReconcilePath(read, svc, sha, t.store, t.directory, paths[0]));
      assert t'.store == t.store && t'.directory == t.directory;
      assert forall p :: p in paths[1..] ==> p in paths;
      InSyncLoopIsNoop(read, svc, sha, t', paths[1..]);
      UnfoldReconcileAll(read, svc, sha, t, paths);
    }
  }

  /** Change detection looks at the hash alone: a path whose row holds a
      different hash is updated in place, keeping its slug and author, and
      is republished. */
  lemma ChangedHashIsUpdate(read: Reader, svc: Services, sha: string, c: Store, d: Accounts.Directory,
                            path: string, id: SkillId)
    requires Valid(c) && Accounts.Valid(d)
    requires read(path).Success?
    requires FindBySource(c, KeyOf(path)) == Some(id)
    requires c.records[id].contentHash != Some(HashOf(read, svc, sha, path))
    ensures var s := ReconcilePath(read, svc, sha, c, d, path);
      && s.outcome == Updated(id)
      && s.store.records[id].slug == c.records[id].slug
      && s.store.records[id].authorId == c.records[id].authorId
      && s.store.records[id].status == Published
      && s.store.records[id].contentHash == Some(HashOf(read, svc, sha, path))
  {
  }

  /** An unchanged hash writes nothing, so a row archived by an earlier run
      stays archived when its document reappears with the same content. */
  lemma UnchangedStaysArchived(read: Reader, svc: Services, sha: string, c: Store, d: Accounts.Directory, path: string)
    requires Valid(c) && Accounts.Valid(d)
    requires InSync(read, svc.hash, c, path)
    requires c.records[FindBySource(c, KeyOf(path)).value].status == Archived
    ensures var s := ReconcilePath(read, svc, sha, c, d, path);
      && s.outcome.Unchanged?
      && s.store.records[FindBySource(c, KeyOf(path)).value].status == Archived
  {
  }

  /** One iteration writes at most the row with the path's source identity
      (or a new row): every other row comes out as it went in. */
  lemma ReconcilePathKeepsOtherRows(read: Reader, svc: Services, sha: string, c: Store, d: Accounts.Directory,
                                    path: string, id: SkillId)
    requires Valid(c) && Accounts.Valid(d)
    requires id in c.records && SourceOf(c.records[id]) != Some(KeyOf(path))
    ensures var s := ReconcilePath(read, svc, sha, c, d, path);
      id in s.store.records && s.store.records[id] == c.records[id]
  {
    var s := ReconcilePath(read, svc, sha, c, d, path);
    if s.outcome.Created? {
      assert id != s.outcome.id;
    } else if s.outcome.Updated? {
      assert SourceOf(c.records[s.outcome.id]) == Some(KeyOf(path));
    }
  }

  /** The loop never writes a row that is not sourced from the synced
      repository, such as a user-authored skill. */
  lemma {:induction false} ReconcileAllKeepsForeignRows(read: Reader, svc: Services, sha: string, t: Tally,
                                                        paths: seq<string>, id: SkillId)
    requires Valid(t.store) && Accounts.Valid(t.directory)
    requires id in t.store.records && t.store.records[id].sourceRepo != Some(Repo)
    ensures var r := ReconcileAll(read, svc, sha, t, paths);
      id in r.store.records && r.store.records[id] == t.store.records[id]
    decreases |paths|
  {
    if |paths| > 0 {
      var s := ReconcilePath(read, svc, sha, t.store, t.directory, paths[0]);
      ReconcilePathKeepsOtherRows(read, svc, sha, t.store, t.directory, paths[0], id);
      ReconcileAllKeepsForeignRows(read, svc, sha, Record(t, paths[0], s), paths[1..], id);
      UnfoldReconcileAll(read, svc, sha, t, paths);
    }
  }

  /** Archival changes statuses only, so it keeps every path in sync. */
  lemma ArchiveKeepsSync(read: Reader, hash: string -> string, c: Store, repo: string, touched: set<string>, q: string)
    requires InSync(read, hash, c, q)
    ensures InSync(read, hash, Archive(c, repo, touched), q)
  {
    ArchivePreservesValid(c, repo, touched);
  }
}
