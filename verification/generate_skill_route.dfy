/** `POST /api/llm/generate-skill`: a signed-in user, within both the
    per-address and the per-user rate limits, sends a generation request;
    a generation that succeeds is returned and recorded in the usage log. */
module GenerateSkillRoute {
  import opened Wrappers
  import opened Schema
  import opened HttpRequest
  import opened ModelsProvider

  const Endpoint := "/api/llm/generate-skill"

  /** One row of the usage log. */
  datatype UsageLog = UsageLog(userId: string, endpoint: string, model: string, promptTokens: int,
                               completionTokens: int)

  /** The request as the handler sees it; `body` is None when the payload
      is not JSON (`request.json()` throws). */
  datatype GenerateRequest = GenerateRequest(session: Option<SessionUser>, forwardedFor: Option<string>,
                                             body: Option<Json>)

  /** The two limiters of the route and the model service's surroundings. */
  datatype Upstream = Upstream(ipLimiter: Limiter, userLimiter: Limiter, envToken: Option<string>,
                               send: ModelsRequest -> Result<HttpReply, Thrown>)

  /** The response status, the rate-limit keys charged, the usage log after
      the request, the generation returned on 200, and the failing schema
      keys returned on 400. */
  datatype GenerateResponse = GenerateResponse(status: nat, charged: seq<string>, logs: seq<UsageLog>,
                                               generation: Option<Generation>, issues: seq<string>)

  function IpKey(ip: string): string { "llm:ip:" + ip }

  function UserKey(id: string): string { "llm:user:" + id }

  /** `POST`: 401 without a signed-in user, before any limiter is asked;
      then both limiters are asked together and either refusal gives 429;
      a body that is not JSON is an unhandled error (500); a body failing
      the schema gives 400; a generation that throws is a 500 and logs
      nothing; otherwise the usage is logged and the generation returned. */
  function HandleGenerate(req: GenerateRequest, up: Upstream, logs: seq<UsageLog>): (r: GenerateResponse)
    ensures r.status == 401 <==> !SignedIn(req.session)
    ensures r.status == 401 ==> r.charged == [] && r.logs == logs
    ensures r.status != 401 ==>
      r.charged == Charged(up.ipLimiter, IpKey(GetIp(req.forwardedFor)))
                 + Charged(up.userLimiter, UserKey(req.session.value.id))
    ensures r.status == 429 <==>
      r.status != 401 && !(Enforce(up.ipLimiter, IpKey(GetIp(req.forwardedFor)))
                           && Enforce(up.userLimiter, UserKey(req.session.value.id)))
    ensures r.status == 400 <==>
      r.status !in {401, 429} && req.body.Some? && ValidateGenerate(req.body.value).Failure?
    ensures r.status == 400 ==> r.issues == ValidateGenerate(req.body.value).error && |r.issues| > 0
    ensures r.status != 200 ==> r.logs == logs && r.generation.None?
    ensures r.status == 200 <==>
      && r.status !in {401, 429}
      && req.body.Some? && ValidateGenerate(req.body.value).Success?
      && Generate(ValidateGenerate(req.body.value).value, up.envToken, up.send).Success?
    ensures r.status == 200 ==>
      var x := ValidateGenerate(req.body.value).value;
      var g := Generate(x, up.envToken, up.send).value;
      && r.generation == Some(g)
      && r.logs == logs + [UsageLog(req.session.value.id, Endpoint, x.model, g.promptTokens, g.completionTokens)]
    ensures r.status in {200, 400, 401, 429, 500}
  {
    if !SignedIn(req.session) then GenerateResponse(401, [], logs, None, [])
    else
      var userId := req.session.value.id;
      var ipKey := IpKey(GetIp(req.forwardedFor));
      var userKey := UserKey(userId);
      var charged := Charged(up.ipLimiter, ipKey) + Charged(up.userLimiter, userKey);
      if !(Enforce(up.ipLimiter, ipKey) && Enforce(up.userLimiter, userKey)) then
        GenerateResponse(429, charged, logs, None, [])
      else if req.body.None? then GenerateResponse(500, charged, logs, None, [])
      else
        match ValidateGenerate(req.body.value)
        case Failure(keys) => GenerateResponse(400, charged, logs, None, keys)
        case Success(x) =>
          match Generate(x, up.envToken, up.send)
          case Failure(_) => GenerateResponse(500, charged, logs, None, [])
          case Success(g) =>
            var entry := UsageLog(userId, Endpoint, x.model, g.promptTokens, g.completionTokens);
            GenerateResponse(200, charged, logs + [entry], Some(g), [])
  }

  /** The usage log grows by at most one row, and only on a successful
      generation; every row it gains is for the caller and this endpoint. */
  lemma LogGrowsOnlyOnSuccess(req: GenerateRequest, up: Upstream, logs: seq<UsageLog>)
    ensures var r := HandleGenerate(req, up, logs);
      && logs <= r.logs && |r.logs| <= |logs| + 1
      && (|r.logs| == |logs| + 1 <==> r.status == 200)
      && (|r.logs| == |logs| + 1 ==>
            r.logs[|logs|].userId == req.session.value.id && r.logs[|logs|].endpoint == Endpoint)
  {
  }

  /** A request without a signed-in user is refused the same way whatever
      the limiters, the body and the model service would do. */
  lemma UnauthorizedIgnoresEverythingElse(req: GenerateRequest, up: Upstream, up': Upstream, logs: seq<UsageLog>,
                                          body': Option<Json>)
    requires !SignedIn(req.session)
    ensures HandleGenerate(req, up, logs) == HandleGenerate(req.(body := body'), up', logs)
  {
  }

  /** Without configured limiters nothing is charged and no request is
      rate-limited. */
  lemma NoLimitersNeverThrottle(req: GenerateRequest, send: ModelsRequest -> Result<HttpReply, Thrown>,
                                envToken: Option<string>, logs: seq<UsageLog>)
    ensures var r := HandleGenerate(req, Upstream(None, None, envToken, send), logs);
      r.status != 429 && r.charged == []
  {
  }

  /** In platform mode with no server token the request fails before the
      model service is reached, and nothing is logged. */
  lemma MissingPlatformTokenFails(req: GenerateRequest, up: Upstream, logs: seq<UsageLog>)
    requires SignedIn(req.session)
    requires Enforce(up.ipLimiter, IpKey(GetIp(req.forwardedFor)))
    requires Enforce(up.userLimiter, UserKey(req.session.value.id))
    requires req.body.Some? && ValidateGenerate(req.body.value).Success?
    requires ValidateGenerate(req.body.value).value.tokenMode == Platform
    requires up.envToken.None? || up.envToken == Some("")
    ensures HandleGenerate(req, up, logs).status == 500
    ensures HandleGenerate(req, up, logs).logs == logs
  {
  }
}
