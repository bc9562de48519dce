/** What the route handlers read from a request and its surroundings: the
    session's user, the client address taken from `x-forwarded-for`, and
    the sliding-window rate limiters, whose verdicts are inputs. */
module HttpRequest {
  import opened Wrappers
  import opened Text
  import Accounts

  /** The user part of a session as the JWT callback fills it in; `isBanned`
      and `role` are the values stored in the token, not re-read. */
  datatype SessionUser = SessionUser(id: string, role: Accounts.Role, isBanned: bool)

  /** `session?.user?.id` is truthy: a session whose user has a non-empty id. */
  predicate SignedIn(session: Option<SessionUser>) {
    session.Some? && session.value.id != ""
  }

  /** `getIp`: the first comma-separated entry of `x-forwarded-for`, trimmed;
      "unknown" only when the header is absent (`??` keeps an empty string). */
  function GetIp(xff: Option<string>): (ip: string)
    ensures xff.None? ==> ip == "unknown"
    ensures xff.Some? ==> ',' !in ip
    ensures xff.Some? ==> exists k :: 0 <= k <= |xff.value| && ip == Trim(xff.value[..k]) &&
                                      ',' !in xff.value[..k] && (k == |xff.value| || xff.value[k] == ',')
  {
    match xff
    case None => "unknown"
    case Some(h) =>
      var first := SplitFirst(h, ',');
      assert first == h[..|first|];
      Trim(first)
  }

  /** A header whose first entry is a bare address (no comma, no white space
      at either end) yields that address, whatever hops proxies appended. */
  lemma GetIpFirstHop(client: string, rest: string)
    requires ',' !in client
    requires client == [] || (!IsJsSpace(client[0]) && !IsJsSpace(client[|client| - 1]))
    ensures GetIp(Some(client)) == client
    ensures GetIp(Some(client + "," + rest)) == client
  {
    TrimOfUnpadded(client);
    SplitFirstOfPrefix(client, rest);
  }

  /** An empty header is not an absent one: the address is "", not "unknown". */
  lemma GetIpEmptyHeader()
    ensures GetIp(Some("")) == ""
    ensures GetIp(None) == "unknown"
  {
  }

  lemma TrimOfUnpadded(s: string)
    requires s == [] || (!IsJsSpace(s[0]) && !IsJsSpace(s[|s| - 1]))
    ensures Trim(s) == s
  {
    assert SkipSpace(s, 0) == 0;
    assert SkipSpaceBack(s, 0, |s|) == |s|;
    assert s[0..|s|] == s;
  }

  lemma {:induction false} SplitFirstOfPrefix(client: string, rest: string)
    requires ',' !in client
    ensures SplitFirst(client + "," + rest, ',') == client
    ensures SplitFirst(client, ',') == client
    decreases |client|
  {
    if |client| > 0 {
      assert (client + "," + rest)[1..] == client[1..] + "," + rest;
      SplitFirstOfPrefix(client[1..], rest);
    } else {
      assert (client + "," + rest)[0] == ',';
    }
  }

  /** A rate limiter: absent when Upstash is not configured (every call then
      succeeds), otherwise its verdict for a key, decided by the external
      sliding window. */
  type Limiter = Option<string -> bool>

  /** `enforceRateLimit(limiter, key).success`. */
  function Enforce(limiter: Limiter, key: string): (ok: bool)
    ensures limiter.None? ==> ok
    ensures limiter.Some? ==> ok == limiter.value(key)
  {
    match limiter
    case None => true
    case Some(decide) => decide(key)
  }

  /** The keys a call to `enforceRateLimit` charges: its key, when the
      limiter exists. */
  function Charged(limiter: Limiter, key: string): (keys: seq<string>)
    ensures limiter.None? ==> keys == []
    ensures limiter.Some? ==> keys == [key]
  {
    if limiter.Some? then [key] else []
  }
}
