/** `GET`/`POST /api/github/sync`: a scheduler presenting the shared secret
    or a signed-in administrator may trigger a sync, subject to a per-address
    rate limit; the response carries the run's report. Both methods run the
    same handler. */
module SyncRoute {
  import opened Wrappers
  import Accounts
  import opened HttpRequest
  import opened Reconciler
  import opened SyncJobs

  /** `isCron`: `CRON_SECRET` is set and not empty, and the `authorization`
      header is exactly "Bearer " followed by it. */
  function IsCronAuthorized(cronSecret: Option<string>, authorization: Option<string>): (ok: bool)
    ensures ok ==> cronSecret.Some? && |cronSecret.value| > 0
    ensures ok ==> authorization.Some? && |authorization.value| == 7 + |cronSecret.value|
    ensures ok <==> cronSecret.Some? && cronSecret.value != "" && authorization == Some("Bearer " + cronSecret.value)
  {
    cronSecret.Some? && cronSecret.value != "" && authorization == Some("Bearer " + cronSecret.value)
  }

  /** The session carries the ADMIN role. */
  predicate IsAdmin(session: Option<SessionUser>) {
    session.Some? && session.value.role == Accounts.Admin
  }

  /** The request as the handler sees it. */
  datatype SyncRequest = SyncRequest(session: Option<SessionUser>, authorization: Option<string>,
                                     forwardedFor: Option<string>)

  /** The response status, the rate-limit keys charged, the state after the
      request, and the report returned on 200. */
  datatype SyncResponse = SyncResponse(status: nat, charged: seq<string>, world: World, report: Option<SyncReport>)

  /** `handleSync`: 403 unless cron or admin, before any rate-limit key is
      charged; then the key "sync:" + address, 429 when it is refused; only
      then the run, whose report is returned with 200, or whose re-thrown
      error becomes a 500. */
  function HandleSync(req: SyncRequest, cronSecret: Option<string>, limiter: Limiter, w: World,
                      listing: Result<Listing, Thrown>, read: Reader, svc: Services, faults: Faults)
    : (r: SyncResponse)
    requires WorldValid(w)
    ensures r.status == 403 <==> !IsCronAuthorized(cronSecret, req.authorization) && !IsAdmin(req.session)
    ensures r.status == 403 ==> r.charged == [] && r.world == w
    ensures r.status != 403 ==> r.charged == Charged(limiter, "sync:" + GetIp(req.forwardedFor))
    ensures r.status == 429 <==> r.status != 403 && !Enforce(limiter, "sync:" + GetIp(req.forwardedFor))
    ensures r.status == 429 ==> r.world == w
    ensures r.status == 200 || r.status == 500 ==>
      var run := RunSync(w, listing, read, svc, faults);
      && r.world == run.world
      && (r.status == 200 <==> run.result.Success?)
      && (r.status == 200 ==> r.report == Some(run.result.value))
    ensures r.status in {200, 403, 429, 500}
  {
    var authorized := IsCronAuthorized(cronSecret, req.authorization) || IsAdmin(req.session);
    if !authorized then SyncResponse(403, [], w, None)
    else
      var key := "sync:" + GetIp(req.forwardedFor);
      var charged := Charged(limiter, key);
      if !Enforce(limiter, key) then SyncResponse(429, charged, w, None)
      else
        var run := RunSync(w, listing, read, svc, faults);
        match run.result
        case Success(report) => SyncResponse(200, charged, run.world, Some(report))
        case Failure(_) => SyncResponse(500, charged, run.world, None)
  }

  /** A request that is neither the scheduler's nor an administrator's is
      refused whatever the limiter and the upstream would do, and starts no
      job. */
  lemma ForbiddenStartsNoJob(req: SyncRequest, cronSecret: Option<string>, limiter: Limiter, w: World,
                             listing: Result<Listing, Thrown>, read: Reader, svc: Services, faults: Faults)
    requires WorldValid(w)
    requires !IsCronAuthorized(cronSecret, req.authorization) && !IsAdmin(req.session)
    ensures HandleSync(req, cronSecret, limiter, w, listing, read, svc, faults).world.jobs == w.jobs
  {
  }

  /** An unset or empty secret authorises no one, whatever header is sent. */
  lemma EmptySecretNeverAuthorizes(authorization: Option<string>)
    ensures !IsCronAuthorized(None, authorization)
    ensures !IsCronAuthorized(Some(""), authorization)
  {
  }

  /** A request that passes both gates always starts exactly one job. */
  lemma AdmittedStartsOneJob(req: SyncRequest, cronSecret: Option<string>, limiter: Limiter, w: World,
                             listing: Result<Listing, Thrown>, read: Reader, svc: Services, faults: Faults)
    requires WorldValid(w)
    requires IsCronAuthorized(cronSecret, req.authorization) || IsAdmin(req.session)
    requires Enforce(limiter, "sync:" + GetIp(req.forwardedFor))
    ensures var r := HandleSync(req, cronSecret, limiter, w, listing, read, svc, faults);
      (r.status == 200 || r.status == 500) && |r.world.jobs| == |w.jobs| + 1
  {
  }
}
