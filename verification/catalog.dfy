/** The skill catalog: skill rows keyed by id, the unique index on the
    compound source identity (source repository, source path), the unique
    slug, and the append-only version rows. Writes are whole-value
    replacements, so a transaction is one step from one store to the next. */
module Catalog {
  import opened Wrappers

  type SkillId = nat

  /** A wall-clock reading; only whether a timestamp is set, and to which
      reading, is modelled. */
  type Instant = nat

  datatype SkillStatus = Draft | Published | Archived

  datatype SkillSource = UserAuthored | GithubSync

  /** The compound source identity of a synced skill. */
  datatype SourceKey = SourceKey(repo: string, path: string)

  datatype SkillRecord = SkillRecord(
    slug: string,
    title: string,
    description: string,
    content: string,
    category: string,
    tags: seq<string>,
    compatibility: seq<string>,
    sourceType: SkillSource,
    sourceRepo: Option<string>,
    sourcePath: Option<string>,
    sourceSha: Option<string>,
    contentHash: Option<string>,
    githubUrl: Option<string>,
    status: SkillStatus,
    isPublic: bool,
    publishedAt: Option<Instant>,
    authorId: string)

  /** The row's compound source identity; absent unless both parts are set
      (a NULL column never collides in a unique index). */
  function SourceOf(r: SkillRecord): Option<SourceKey> {
    if r.sourceRepo.Some? && r.sourcePath.Some? then Some(SourceKey(r.sourceRepo.value, r.sourcePath.value)) else None
  }

  datatype VersionMetadata = VersionMetadata(
    title: string,
    description: string,
    tags: seq<string>,
    compatibility: seq<string>)

  datatype SkillVersion = SkillVersion(
    skillId: SkillId,
    version: string,
    content: string,
    metadata: VersionMetadata,
    contentHash: string)

  datatype Store = Store(
    records: map<SkillId, SkillRecord>,
    bySource: map<SourceKey, SkillId>,
    versions: seq<SkillVersion>,
    nextId: SkillId)

  /** The database's constraints: ids below the id counter, the source index
      naming exactly the rows with a source identity, unique slugs, and
      version rows that belong to existing skills. */
  ghost predicate Valid(c: Store) {
    && (forall id :: id in c.records ==> id < c.nextId)
    && (forall k :: k in c.bySource ==> c.bySource[k] in c.records && SourceOf(c.records[c.bySource[k]]) == Some(k))
    && (forall id :: id in c.records && SourceOf(c.records[id]).Some? ==>
          SourceOf(c.records[id]).value in c.bySource && c.bySource[SourceOf(c.records[id]).value] == id)
    && (forall i, j :: i in c.records && j in c.records && i != j ==> c.records[i].slug != c.records[j].slug)
    && (forall i :: 0 <= i < |c.versions| ==> c.versions[i].skillId in c.records)
  }

  /** `findUnique` on the compound source identity. */
  function FindBySource(c: Store, key: SourceKey): (r: Option<SkillId>)
    requires Valid(c)
    ensures r.Some? ==> r.value in c.records && SourceOf(c.records[r.value]) == Some(key)
    ensures r.None? ==> forall id :: id in c.records ==> SourceOf(c.records[id]) != Some(key)
  {
    if key in c.bySource then Some(c.bySource[key]) else None
  }

  /** Some row already uses `slug`. */
  predicate SlugTaken(c: Store, slug: string) {
    exists id :: id in c.records && c.records[id].slug == slug
  }

  datatype Inserted = Inserted(store: Store, id: SkillId)

  /** `create`: the row is stored under a fresh id; nothing else changes. */
  function Insert(c: Store, rec: SkillRecord): (r: Inserted)
    requires Valid(c)
    requires !SlugTaken(c, rec.slug)
    requires SourceOf(rec).Some? ==> FindBySource(c, SourceOf(rec).value).None?
    ensures Valid(r.store)
    ensures r.id !in c.records
    ensures r.store.records == c.records[r.id := rec]
    ensures r.store.versions == c.versions
  {
    var id := c.nextId;
    var index := if SourceOf(rec).Some? then c.bySource[SourceOf(rec).value := id] else c.bySource;
    Inserted(Store(c.records[id := rec], index, c.versions, c.nextId + 1), id)
  }

  /** `update` of row `id` with fields that keep its slug and source identity. */
  function Replace(c: Store, id: SkillId, rec: SkillRecord): (r: Store)
    requires Valid(c) && id in c.records
    requires rec.slug == c.records[id].slug && SourceOf(rec) == SourceOf(c.records[id])
    ensures Valid(r)
    ensures r.records == c.records[id := rec]
    ensures r.versions == c.versions
  {
    Store(c.records[id := rec], c.bySource, c.versions, c.nextId)
  }

  /** Append a version row for an existing skill. */
  function AppendVersion(c: Store, v: SkillVersion): (r: Store)
    requires Valid(c) && v.skillId in c.records
    ensures Valid(r)
    ensures r.records == c.records
    ensures r.versions == c.versions + [v]
  {
    c.(versions := c.versions + [v])
  }

  /** The rows the sync's bulk archival selects: synced rows of `repo` whose
      path was not touched. A row without a path is never selected (SQL
      `NULL NOT IN (...)` is not true). */
  predicate ArchivalTarget(rec: SkillRecord, repo: string, touched: set<string>) {
    && rec.sourceRepo == Some(repo)
    && rec.sourceType == GithubSync
    && rec.sourcePath.Some?
    && rec.sourcePath.value !in touched
  }

  /** The `updateMany` that archives every selected row: selected rows become
      ARCHIVED, every other row keeps its status, and no other field of any
      row changes. */
  function Archive(c: Store, repo: string, touched: set<string>): (r: Store)
    ensures r.records.Keys == c.records.Keys
    ensures forall id :: id in c.records ==>
      r.records[id].status == (if ArchivalTarget(c.records[id], repo, touched) then Archived else c.records[id].status)
    ensures forall id :: id in c.records ==> r.records[id] == c.records[id].(status := r.records[id].status)
    ensures r.bySource == c.bySource && r.versions == c.versions && r.nextId == c.nextId
  {
    var records := map id | id in c.records ::
      if ArchivalTarget(c.records[id], repo, touched) then c.records[id].(status := Archived) else c.records[id];
    c.(records := records)
  }

  /** Archival keeps the database's constraints. */
  lemma ArchivePreservesValid(c: Store, repo: string, touched: set<string>)
    requires Valid(c)
    ensures Valid(Archive(c, repo, touched))
  {
    var r := Archive(c, repo, touched);
    assert forall id :: id in r.records ==> SourceOf(r.records[id]) == SourceOf(c.records[id]);
  }

  /** Archival is scoped: rows written by users, rows of another repository,
      and rows whose path was touched come out exactly as they went in. */
  lemma ArchiveScope(c: Store, repo: string, touched: set<string>, id: SkillId)
    requires id in c.records
    requires || c.records[id].sourceType == UserAuthored
             || c.records[id].sourceRepo != Some(repo)
             || (c.records[id].sourcePath.Some? && c.records[id].sourcePath.value in touched)
    ensures Archive(c, repo, touched).records[id] == c.records[id]
  {
    var r := Archive(c, repo, touched);
    assert !ArchivalTarget(c.records[id], repo, touched);
    assert r.records[id] == c.records[id].(status := c.records[id].status);
  }

  /** Archiving twice with the same touched set archives nothing more. */
  lemma ArchiveIdempotent(c: Store, repo: string, touched: set<string>)
    ensures Archive(Archive(c, repo, touched), repo, touched) == Archive(c, repo, touched)
  {
    var once := Archive(c, repo, touched);
    var twice := Archive(once, repo, touched);
    forall id | id in once.records ensures twice.records[id] == once.records[id] {
      assert ArchivalTarget(once.records[id], repo, touched) == ArchivalTarget(c.records[id], repo, touched);
    }
    assert twice.records == once.records;
  }
}
