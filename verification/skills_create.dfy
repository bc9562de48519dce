/** `POST /api/skills`: the request schema, the ordered checks that decide
    the response, and the transaction that stores a user-authored skill,
    its first version and the author's raised creation count. */
module SkillsCreate {
  import opened Wrappers
  import opened Text
  import opened Schema
  import opened TierPolicy
  import Accounts
  import opened Catalog
  import opened HttpRequest

  /** The names of the publication states, as the request spells them. */
  const StatusNames := ["DRAFT", "PUBLISHED", "ARCHIVED"]

  function StatusNamed(name: string): (st: SkillStatus)
    requires name in StatusNames
    ensures NameOf(st) == name
  {
    if name == "DRAFT" then Draft else if name == "PUBLISHED" then Published else Archived
  }

  function NameOf(st: SkillStatus): (name: string)
    ensures name in StatusNames
  {
    match st
    case Draft => "DRAFT"
    case Published => "PUBLISHED"
    case Archived => "ARCHIVED"
  }

  lemma StatusNamesRoundTrip(st: SkillStatus)
    ensures StatusNamed(NameOf(st)) == st
  {
  }

  /** A request body that passed `createSkillSchema`. */
  datatype CreateSkillInput = CreateSkillInput(
    title: string,
    description: string,
    content: string,
    category: string,
    tags: seq<string>,
    compatibility: seq<string>,
    isPublic: bool,
    status: SkillStatus)

  /** The schema's bounds, in UTF-16 code units: title 3..120, description
      10..300, content 20..100000, category 2..50, at most 20 tags and 10
      compatibility entries of 1..40 each. */
  predicate WithinBounds(x: CreateSkillInput) {
    && 3 <= Utf16Length(x.title) <= 120
    && 10 <= Utf16Length(x.description) <= 300
    && 20 <= Utf16Length(x.content) <= 100000
    && 2 <= Utf16Length(x.category) <= 50
    && |x.tags| <= 20 && AllBounded(x.tags, 1, 40)
    && |x.compatibility| <= 10 && AllBounded(x.compatibility, 1, 40)
  }

  /** Each key of the schema checked on its own: the value, or `None` when
      the check fails. */
  datatype FieldResults = FieldResults(
    title: Option<string>,
    description: Option<string>,
    content: Option<string>,
    category: Option<string>,
    tags: Option<seq<string>>,
    compatibility: Option<seq<string>>,
    isPublic: Option<bool>,
    status: Option<string>)

  function CheckFields(f: map<string, Json>): FieldResults {
    FieldResults(
      RequiredString(f, "title", 3, 120),
      RequiredString(f, "description", 10, 300),
      RequiredString(f, "content", 20, 100000),
      RequiredString(f, "category", 2, 50),
      StringArray(f, "tags", 1, 40, 20, []),
      StringArray(f, "compatibility", 1, 40, 10, ["claude"]),
      DefaultedBool(f, "isPublic", true),
      DefaultedEnum(f, "status", StatusNames, "PUBLISHED"))
  }

  predicate AllPassed(v: FieldResults) {
    && v.title.Some? && v.description.Some? && v.content.Some? && v.category.Some?
    && v.tags.Some? && v.compatibility.Some? && v.isPublic.Some? && v.status.Some?
  }

  /** The checks in schema order, for the issue list. */
  function Outcomes(v: FieldResults): (checks: seq<(string, bool)>)
    ensures (forall i :: 0 <= i < |checks| ==> checks[i].1) <==> AllPassed(v)
  {
    var checks := [("title", v.title.Some?), ("description", v.description.Some?),
                   ("content", v.content.Some?), ("category", v.category.Some?),
                   ("tags", v.tags.Some?), ("compatibility", v.compatibility.Some?),
                   ("isPublic", v.isPublic.Some?), ("status", v.status.Some?)];
    assert !AllPassed(v) ==> exists i :: 0 <= i < |checks| && !checks[i].1 by {
      if !v.title.Some? { assert !checks[0].1; }
      else if !v.description.Some? { assert !checks[1].1; }
      else if !v.content.Some? { assert !checks[2].1; }
      else if !v.category.Some? { assert !checks[3].1; }
      else if !v.tags.Some? { assert !checks[4].1; }
      else if !v.compatibility.Some? { assert !checks[5].1; }
      else if !v.isPublic.Some? { assert !checks[6].1; }
      else if !v.status.Some? { assert !checks[7].1; }
    }
    checks
  }

  /** `createSkillSchema.safeParse`: the validated input, or the keys whose
      check failed ("" for a body that is not an object). Absent optional
      keys take their defaults: no tags, compatibility ["claude"], public,
      PUBLISHED. */
  function ValidateCreate(body: Json): (r: Result<CreateSkillInput, seq<string>>)
    ensures r.Success? ==> WithinBounds(r.value) && body.JObj?
    ensures !body.JObj? ==> r == Failure([""])
    ensures r.Failure? ==> |r.error| > 0
    ensures r.Success? ==>
      var f := body.fields;
      && "title" in f && "description" in f && "content" in f && "category" in f
      && f["title"] == JStr(r.value.title)
      && f["description"] == JStr(r.value.description)
      && f["content"] == JStr(r.value.content)
      && f["category"] == JStr(r.value.category)
  {
    if !body.JObj? then Failure([""])
    else
      var v := CheckFields(body.fields);
      if AllPassed(v) then
        Success(CreateSkillInput(v.title.value, v.description.value, v.content.value, v.category.value,
                                 v.tags.value, v.compatibility.value, v.isPublic.value, StatusNamed(v.status.value)))
      else
        Failure(FailedKeys(Outcomes(v)))
  }

  /** The optional keys: a present key must hold the value accepted, an
      absent one takes its default (no tags, compatibility ["claude"],
      public, PUBLISHED). */
  lemma ValidateCreateOptionalKeys(body: Json)
    requires ValidateCreate(body).Success?
    ensures var x := ValidateCreate(body).value;
      var f := body.fields;
      && ("tags" in f ==> f["tags"] == JArr(JStrings(x.tags)))
      && ("tags" !in f ==> x.tags == [])
      && ("compatibility" in f ==> f["compatibility"] == JArr(JStrings(x.compatibility)))
      && ("compatibility" !in f ==> x.compatibility == ["claude"])
      && ("isPublic" in f ==> f["isPublic"] == JBool(x.isPublic))
      && ("isPublic" !in f ==> x.isPublic)
      && ("status" in f ==> f["status"] == JStr(NameOf(x.status)))
      && ("status" !in f ==> x.status == Published)
  {
  }

  /** The checks carry eight different keys. */
  lemma OutcomeKeysDistinct(v: FieldResults)
    ensures DistinctKeys(Outcomes(v))
  {
  }

  /** A refused object names exactly the required keys that are missing or
      out of bounds. */
  lemma ValidateCreateNamesRequired(body: Json)
    requires body.JObj? && ValidateCreate(body).Failure?
    ensures var keys := ValidateCreate(body).error;
      var f := body.fields;
      && ("title" in keys <==> !("title" in f && BoundedString(f["title"], 3, 120)))
      && ("description" in keys <==> !("description" in f && BoundedString(f["description"], 10, 300)))
      && ("content" in keys <==> !("content" in f && BoundedString(f["content"], 20, 100000)))
      && ("category" in keys <==> !("category" in f && BoundedString(f["category"], 2, 50)))
  {
    var c := Outcomes(CheckFields(body.fields));
    OutcomeKeysDistinct(CheckFields(body.fields));
    FailedKeyNamed(c, 0);
    FailedKeyNamed(c, 1);
    FailedKeyNamed(c, 2);
    FailedKeyNamed(c, 3);
  }

  /** A refused object names exactly the optional keys that are present with
      a value of the wrong shape; an absent optional key is never named. */
  lemma ValidateCreateNamesOptional(body: Json)
    requires body.JObj? && ValidateCreate(body).Failure?
    ensures var keys := ValidateCreate(body).error;
      var f := body.fields;
      && ("tags" in keys <==> "tags" in f && !IsStringArray(f["tags"], 1, 40, 20))
      && ("compatibility" in keys <==> "compatibility" in f && !IsStringArray(f["compatibility"], 1, 40, 10))
      && ("isPublic" in keys <==> "isPublic" in f && !f["isPublic"].JBool?)
      && ("status" in keys <==> "status" in f && !(f["status"].JStr? && f["status"].s in StatusNames))
  {
    var c := Outcomes(CheckFields(body.fields));
    OutcomeKeysDistinct(CheckFields(body.fields));
    FailedKeyNamed(c, 4);
    FailedKeyNamed(c, 5);
    FailedKeyNamed(c, 6);
    FailedKeyNamed(c, 7);
  }

  /** The request body a client sends for an input, every key spelled out. */
  function Encode(x: CreateSkillInput): (body: Json)
    ensures body.JObj?
  {
    JObj(map[
      "title" := JStr(x.title), "description" := JStr(x.description), "content" := JStr(x.content),
      "category" := JStr(x.category), "tags" := JArr(JStrings(x.tags)),
      "compatibility" := JArr(JStrings(x.compatibility)), "isPublic" := JBool(x.isPublic),
      "status" := JStr(NameOf(x.status))])
  }

  lemma CheckEncoded(x: CreateSkillInput)
    requires WithinBounds(x)
    ensures CheckFields(Encode(x).fields) ==
      FieldResults(Some(x.title), Some(x.description), Some(x.content), Some(x.category), Some(x.tags),
                   Some(x.compatibility), Some(x.isPublic), Some(NameOf(x.status)))
  {
    var f := Encode(x).fields;
    assert f["title"] == JStr(x.title);
    assert f["description"] == JStr(x.description);
    assert f["content"] == JStr(x.content);
    assert f["category"] == JStr(x.category);
    assert f["tags"] == JArr(JStrings(x.tags));
    assert f["compatibility"] == JArr(JStrings(x.compatibility));
    assert f["isPublic"] == JBool(x.isPublic);
    assert f["status"] == JStr(NameOf(x.status));
  }

  /** Every input within the bounds is accepted exactly as sent. */
  lemma ValidateEncodeRoundTrip(x: CreateSkillInput)
    requires WithinBounds(x)
    ensures ValidateCreate(Encode(x)) == Success(x)
  {
    CheckEncoded(x);
    StatusNamesRoundTrip(x.status);
  }

  /** A body with only the four required strings gets the schema's defaults. */
  lemma DefaultsApplied(title: string, description: string, content: string, category: string)
    requires 3 <= Utf16Length(title) <= 120 && 10 <= Utf16Length(description) <= 300
    requires 20 <= Utf16Length(content) <= 100000 && 2 <= Utf16Length(category) <= 50
    ensures ValidateCreate(JObj(map["title" := JStr(title), "description" := JStr(description),
                                    "content" := JStr(content), "category" := JStr(category)]))
         == Success(CreateSkillInput(title, description, content, category, [], ["claude"], true, Published))
  {
    var f := map["title" := JStr(title), "description" := JStr(description),
                 "content" := JStr(content), "category" := JStr(category)];
    assert f["title"] == JStr(title);
    assert f["description"] == JStr(description);
    assert f["content"] == JStr(content);
    assert f["category"] == JStr(category);
    assert "tags" !in f && "compatibility" !in f && "isPublic" !in f && "status" !in f;
    assert CheckFields(f) == FieldResults(Some(title), Some(description), Some(content), Some(category), Some([]),
                                          Some(["claude"]), Some(true), Some("PUBLISHED"));
  }

  /** The values the handler takes from outside: `makeSlug`, the random hex
      suffix, SHA-256 and the clock. */
  datatype CreateEnv = CreateEnv(slugify: string -> string, suffix: string, hash: string -> string, now: Instant)

  /** The response status, the state after the request, the created row and
      its id (on 201), and the validation issues (on 400). */
  datatype PostResult = PostResult(
    status: nat,
    store: Store,
    directory: Accounts.Directory,
    created: Option<SkillId>,
    issues: seq<string>)

  /** The row stored for a validated input. */
  function UserSkill(x: CreateSkillInput, slug: string, contentHash: string, authorId: string, now: Instant)
    : (rec: SkillRecord)
    ensures |rec.tags| == |x.tags| && forall i :: 0 <= i < |x.tags| ==> rec.tags[i] == Lower(x.tags[i])
    ensures |rec.compatibility| == |x.compatibility| &&
            forall i :: 0 <= i < |x.compatibility| ==> rec.compatibility[i] == Lower(x.compatibility[i])
    ensures rec.sourceType == UserAuthored && SourceOf(rec).None?
    ensures rec.publishedAt.Some? <==> x.status == Published
    ensures rec.slug == slug && rec.title == x.title && rec.description == x.description &&
            rec.content == x.content && rec.category == x.category && rec.status == x.status &&
            rec.isPublic == x.isPublic && rec.contentHash == Some(contentHash) && rec.authorId == authorId
  {
    SkillRecord(
      slug := slug, title := x.title, description := x.description, content := x.content,
      category := x.category,
      tags := seq(|x.tags|, i requires 0 <= i < |x.tags| => Lower(x.tags[i])),
      compatibility := seq(|x.compatibility|, i requires 0 <= i < |x.compatibility| => Lower(x.compatibility[i])),
      sourceType := UserAuthored, sourceRepo := None, sourcePath := None, sourceSha := None,
      contentHash := Some(contentHash), githubUrl := None,
      status := x.status, isPublic := x.isPublic,
      publishedAt := if x.status == Published then Some(now) else None,
      authorId := authorId)
  }

  /** The first version of a new skill. */
  function FirstVersion(id: SkillId, rec: SkillRecord, contentHash: string): SkillVersion {
    SkillVersion(id, "1.0.0", rec.content, VersionMetadata(rec.title, rec.description, rec.tags, rec.compatibility),
                 contentHash)
  }

  /** The stop decided by the checks before the body is read: 401 without a
      signed-in user, 403 for a banned session, 404 for an unknown user, 403
      at the creation quota; 0 when all pass. */
  function Gate(session: Option<SessionUser>, d: Accounts.Directory): (status: nat)
    ensures status == 401 <==> !SignedIn(session)
    ensures status == 0 <==>
      SignedIn(session) && !session.value.isBanned && session.value.id in d.byId &&
      CanCreateSkill(d.byId[session.value.id].tier, d.byId[session.value.id].skillsCreated)
    ensures status == 404 <==> SignedIn(session) && !session.value.isBanned && session.value.id !in d.byId
    ensures status == 403 <==>
      SignedIn(session) &&
      (session.value.isBanned ||
       (session.value.id in d.byId &&
        !CanCreateSkill(d.byId[session.value.id].tier, d.byId[session.value.id].skillsCreated)))
  {
    if !SignedIn(session) then 401
    else if session.value.isBanned then 403
    else if session.value.id !in d.byId then 404
    else
      var user := d.byId[session.value.id];
      if !CanCreateSkill(user.tier, user.skillsCreated) then 403 else 0
  }

  /** The slug a new skill gets: the slugified title and the random suffix. */
  function NewSlug(x: CreateSkillInput, env: CreateEnv): string {
    env.slugify(x.title) + "-" + env.suffix
  }

  /** The effects of a committed creation: the row under a fresh id and
      nothing else changed among the rows, its first version appended, and
      the author's count raised by one with every other account kept. */
  ghost predicate Committed(c: Store, d: Accounts.Directory, x: CreateSkillInput, user: Accounts.UserId, env: CreateEnv,
                            r: PostResult)
    requires user in d.byId
  {
    && r.created.Some?
    && var id := r.created.value;
    && id !in c.records && id in r.store.records
    && var rec := r.store.records[id];
    && r.store.records == c.records[id := rec]
    && rec == UserSkill(x, NewSlug(x, env), env.hash(x.content), user, env.now)
    && r.store.versions == c.versions + [FirstVersion(id, rec, env.hash(x.content))]
    && r.directory.byId.Keys == d.byId.Keys
    && r.directory.byId[user] == d.byId[user].(skillsCreated := d.byId[user].skillsCreated + 1)
    && forall other :: other in d.byId && other != user ==> r.directory.byId[other] == d.byId[other]
  }

  /** The transaction of a valid request whose slug is free. */
  function Commit(c: Store, d: Accounts.Directory, x: CreateSkillInput, user: Accounts.UserId, env: CreateEnv)
    : (r: PostResult)
    requires Valid(c) && Accounts.Valid(d) && user in d.byId && !SlugTaken(c, NewSlug(x, env))
    ensures r.status == 201 && Valid(r.store) && Accounts.Valid(r.directory)
    ensures Committed(c, d, x, user, env, r)
  {
    var h := env.hash(x.content);
    var ins := Insert(c, UserSkill(x, NewSlug(x, env), h, user, env.now));
    var rec := ins.store.records[ins.id];
    var withVersion := AppendVersion(ins.store, FirstVersion(ins.id, rec, h));
    PostResult(201, withVersion, Accounts.IncrementCreated(d, user), Some(ins.id), [])
  }

  /** `POST`. After the gate, a body that is not JSON throws (500), an
      invalid one gets 400, and a valid one runs the transaction: the row,
      its version "1.0.0" with the same content and hash, and the author's
      count raised by one, all or nothing. A slug that is already taken fails
      the transaction (500) and nothing is stored. */
  function PostSkill(session: Option<SessionUser>, d: Accounts.Directory, c: Store, body: Option<Json>, env: CreateEnv)
    : (r: PostResult)
    requires Valid(c) && Accounts.Valid(d)
    ensures Valid(r.store) && Accounts.Valid(r.directory)
    ensures Gate(session, d) != 0 ==> r.status == Gate(session, d)
    ensures r.status != 201 ==> r.store == c && r.directory == d && r.created.None?
    ensures r.status == 400 <==> Gate(session, d) == 0 && body.Some? && ValidateCreate(body.value).Failure?
    ensures r.status == 400 ==> r.issues == ValidateCreate(body.value).error
    ensures r.status == 201 <==>
      && Gate(session, d) == 0 && body.Some? && ValidateCreate(body.value).Success?
      && !SlugTaken(c, NewSlug(ValidateCreate(body.value).value, env))
    ensures r.status == 201 ==>
      session.value.id in d.byId && Committed(c, d, ValidateCreate(body.value).value, session.value.id, env, r)
    ensures Gate(session, d) == 0 && body.None? ==> r.status == 500
    ensures (Gate(session, d) == 0 && body.Some? && ValidateCreate(body.value).Success? &&
             SlugTaken(c, NewSlug(ValidateCreate(body.value).value, env))) ==> r.status == 500
    ensures r.status in {201, 400, 401, 403, 404, 500}
  {
    var gate := Gate(session, d);
    if gate != 0 then PostResult(gate, c, d, None, [])
    else if body.None? then PostResult(500, c, d, None, [])
    else
      match ValidateCreate(body.value)
      case Failure(issues) => PostResult(400, c, d, None, issues)
      case Success(x) =>
        if SlugTaken(c, NewSlug(x, env)) then PostResult(500, c, d, None, [])
        else Commit(c, d, x, session.value.id, env)
  }

  /** Every trial account stays within its quota. */
  ghost predicate TrialQuotaHeld(d: Accounts.Directory) {
    forall id :: id in d.byId && d.byId[id].tier == Trial ==> d.byId[id].skillsCreated <= TrialQuota
  }

  /** Creating skills through this route never takes a trial account past
      three skills. */
  lemma PostKeepsTrialQuota(session: Option<SessionUser>, d: Accounts.Directory, c: Store, body: Option<Json>,
                            env: CreateEnv)
    requires Valid(c) && Accounts.Valid(d)
    requires TrialQuotaHeld(d)
    ensures TrialQuotaHeld(PostSkill(session, d, c, body, env).directory)
  {
    var r := PostSkill(session, d, c, body, env);
    if r.status == 201 {
      var user := session.value.id;
      assert CanCreateSkill(d.byId[user].tier, d.byId[user].skillsCreated);
    }
  }

  /** The order of the checks: a signed-out request is refused before the
      ban, the user lookup and the quota are looked at, and a refused one
      before its body is read. */
  lemma GateOrder(session: Option<SessionUser>, d: Accounts.Directory, c: Store, body: Option<Json>,
                  body': Option<Json>, env: CreateEnv)
    requires Valid(c) && Accounts.Valid(d)
    requires Gate(session, d) != 0
    ensures PostSkill(session, d, c, body, env) == PostSkill(session, d, c, body', env)
  {
  }
}
