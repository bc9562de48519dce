/** User accounts as the routes and the sync job see them, and the
    get-or-create of the account that owns synced skills. */
module Accounts {
  import opened Wrappers
  import opened TierPolicy

  type UserId = string

  /** The stored role values "USER" and "ADMIN". */
  datatype Role = User | Admin

  datatype Account = Account(
    email: string,
    name: string,
    role: Role,
    tier: Tier,
    skillsCreated: nat,
    isBanned: bool)

  /** The user table: rows by id, and the unique index on e-mail. */
  datatype Directory = Directory(byId: map<UserId, Account>, byEmail: map<string, UserId>)

  /** The table's constraints: the e-mail index names exactly the rows and
      their addresses. */
  ghost predicate Valid(d: Directory) {
    && (forall e :: e in d.byEmail ==> d.byEmail[e] in d.byId && d.byId[d.byEmail[e]].email == e)
    && (forall id :: id in d.byId ==> d.byId[id].email in d.byEmail && d.byEmail[d.byId[id].email] == id)
  }

  const DefaultSystemEmail := "sync-bot@synapse.local"
  const SystemAuthorName := "Synapse Sync Bot"

  /** The e-mail of the sync author: `SYSTEM_AUTHOR_EMAIL` when it is set
      (even to the empty string, since `??` only skips undefined), else the
      built-in address. */
  function SystemEmail(configured: Option<string>): (email: string)
    ensures configured.Some? ==> email == configured.value
    ensures configured.None? ==> email == DefaultSystemEmail
  {
    configured.GetOr(DefaultSystemEmail)
  }

  datatype AuthorLookup = AuthorLookup(id: UserId, directory: Directory)

  /** `getSystemAuthorId`: the id of the account with the system e-mail; when
      there is none, a new ADMIN/ENTERPRISE account under `freshId`, which the
      database refuses (a throw) when that id is already taken. */
  function GetOrCreateSystemAuthor(d: Directory, configured: Option<string>, freshId: UserId)
    : (r: Result<AuthorLookup, Thrown>)
    requires Valid(d)
    ensures r.Success? ==> Valid(r.value.directory)
    ensures r.Success? ==>
      && r.value.id in r.value.directory.byId
      && r.value.directory.byId[r.value.id].email == SystemEmail(configured)
    ensures SystemEmail(configured) in d.byEmail ==>
      r == Success(AuthorLookup(d.byEmail[SystemEmail(configured)], d))
    ensures SystemEmail(configured) !in d.byEmail && freshId in d.byId ==> r.Failure?
    ensures SystemEmail(configured) !in d.byEmail && freshId !in d.byId ==>
      && r.Success?
      && r.value.id == freshId
      && r.value.directory.byId == d.byId[freshId := Account(SystemEmail(configured), SystemAuthorName, Admin, Enterprise, 0, false)]
  {
    var email := SystemEmail(configured);
    if email in d.byEmail then
      Success(AuthorLookup(d.byEmail[email], d))
    else if freshId in d.byId then
      Failure(ErrorObject("Unique constraint failed on the fields: (`id`)"))
    else
      var account := Account(email, SystemAuthorName, Admin, Enterprise, 0, false);
      Success(AuthorLookup(freshId, Directory(d.byId[freshId := account], d.byEmail[email := freshId])))
  }

  /** Get-or-create is idempotent: a second call finds the account the first
      one returned and changes nothing, whatever fresh id it is offered. */
  lemma SystemAuthorIdempotent(d: Directory, configured: Option<string>, freshId: UserId, freshId': UserId)
    requires Valid(d)
    requires GetOrCreateSystemAuthor(d, configured, freshId).Success?
    ensures var first := GetOrCreateSystemAuthor(d, configured, freshId).value;
      GetOrCreateSystemAuthor(first.directory, configured, freshId') == Success(first)
  {
    var first := GetOrCreateSystemAuthor(d, configured, freshId).value;
    var email := SystemEmail(configured);
    assert email in first.directory.byEmail;
  }

  /** `skillsCreated: { increment: 1 }` on an existing account; no other
      field and no other account changes. */
  function IncrementCreated(d: Directory, id: UserId): (r: Directory)
    requires Valid(d) && id in d.byId
    ensures Valid(r)
    ensures r.byId.Keys == d.byId.Keys && r.byEmail == d.byEmail
    ensures r.byId[id].skillsCreated == d.byId[id].skillsCreated + 1
    ensures r.byId[id] == d.byId[id].(skillsCreated := r.byId[id].skillsCreated)
    ensures forall other :: other in d.byId && other != id ==> r.byId[other] == d.byId[other]
  {
    var a := d.byId[id];
    d.(byId := d.byId[id := a.(skillsCreated := a.skillsCreated + 1)])
  }
}
