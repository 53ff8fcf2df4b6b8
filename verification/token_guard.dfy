/** The checks of `src/utils/token_guard.py` that run before an operation:
    the authenticated session, the token's scopes read from `GET /user`, the
    rate-limit pre-check on `GET /rate_limit`, and the read-only permission
    probe, in the order `ensure_github_token_ready` runs them.

    The server is a script of replies consumed in order, one per `GET`. A
    reply's arrival time stands in for `int(time.time())`, and the sleep is
    reported as the number of seconds waited.
 */
module TokenGuard {
  import opened Outcome
  import opened Json
  import opened Http
  import Text

  /** The headers `_build_session` adds with `session.headers.update`, on
      top of the defaults `requests.Session()` already carries
      (`Accept-Encoding`, `Connection`), which are not modelled. */
  function SessionHeaders(token: string): (h: map<string, string>)
    ensures "Authorization" in h && h["Authorization"] == "Bearer " + token
    ensures |h.Keys| == 4
  {
    map[
      "Authorization" := "Bearer " + token,
      "Accept" := "application/vnd.github+json",
      "X-GitHub-Api-Version" := "2022-11-28",
      "User-Agent" := "forgeops-manager/token-guard"]
  }

  /** `_build_session(token)`: `ValueError` for an empty token. */
  function BuildSession(token: string): (r: Result<map<string, string>>)
    ensures r.Err? <==> token == []
    ensures r.Err? ==> r.error == ValueError
    ensures r.Ok? ==> r.value == SessionHeaders(token)
  {
    if token == [] then Err(ValueError) else Ok(SessionHeaders(token))
  }

  // ---------------------------------------------------------------------------
  // Scopes
  // ---------------------------------------------------------------------------

  /** `{s.strip() for s in header.split(",") if s.strip()}`. */
  function ScopesOf(header: string): (scopes: set<string>)
    ensures forall u | u in scopes :: u != [] && Text.Strip(u) == u && ',' !in u
  {
    var parts := Text.ParseCsv(Some(header));
    set i | 0 <= i < |parts| :: parts[i]
  }

  /** A scope is listed exactly when some comma-separated piece of the header
      strips to it. */
  lemma ScopesOfHolds(header: string, u: string)
    ensures u in ScopesOf(header) <==> u != [] && Text.StripsTo(Text.Split(header, ','), u)
  {
    Text.ParseCsvHolds(header, u);
  }

  /** One step of the guard: what it produced and how many replies it used. */
  datatype Step<T> = Step(result: Result<T>, used: nat)

  /** `_fetch_token_scopes`: `GET /user` and the `X-OAuth-Scopes` header. The
      status is not looked at, and a transport failure escapes. */
  function FetchScopes(script: seq<Reply>): (s: Step<set<string>>)
    ensures s.used <= 1 && s.used <= |script|
    ensures s.result.Ok? <==> script != [] && script[0].Answer?
    ensures s.result.Ok? ==> s.result.value == ScopesOf(HeaderOrEmpty(script[0].resp, ScopesHeader))
    ensures s.result.Err? ==> s.result.error in {TransportError, NoReply}
  {
    if script == [] then Step(Err(NoReply), 0)
    else match script[0]
      case Broken => Step(Err(TransportError), 1)
      case Answer(resp, _) => Step(Ok(ScopesOf(HeaderOrEmpty(resp, ScopesHeader))), 1)
  }

  /** The scopes `_validate_scopes` reports missing: none when nothing is
      required or the token reports no scopes (a token that does not expose
      them), otherwise the required ones the token lacks. */
  function MissingScopes(token: set<string>, required: set<string>): (m: set<string>)
    ensures m <= required && m !! token
    ensures required == {} || token == {} ==> m == {}
    ensures token != {} ==> (m == {} <==> required <= token)
    ensures token != {} ==> forall s :: s in m <==> s in required && s !in token
  {
    if required == {} || token == {} then {}
    else
      var missing := required - token;
      assert missing == {} ==> required <= token by {
        if missing == {} {
          forall x | x in required
            ensures x in token
          {
            assert x !in missing;
          }
        }
      }
      missing
  }

  /** `_validate_scopes`: raises `TokenScopeError` exactly when some
      required scope is missing. */
  function ValidateScopes(token: set<string>, required: set<string>): (r: Result<()>)
    ensures r.Err? <==> MissingScopes(token, required) != {}
    ensures r.Err? ==> r.error == TokenScopeError
  {
    if MissingScopes(token, required) != {} then Err(TokenScopeError) else Ok(())
  }

  /** Granting the missing scopes makes the check pass, and granting more
      scopes never makes a passing check fail. */
  lemma ValidateScopesRepair(token: set<string>, more: set<string>, required: set<string>)
    ensures ValidateScopes(token + MissingScopes(token, required), required).Ok?
    ensures ValidateScopes(token, required).Ok? && token != {} ==> ValidateScopes(token + more, required).Ok?
  {
  }

  // ---------------------------------------------------------------------------
  // Rate limit
  // ---------------------------------------------------------------------------

  /** `d.get(key, {})` where `d` must support `.get`: a value that is not an
      object raises `AttributeError`. */
  function SubObject(fields: seq<(string, Json)>, key: string): (r: Result<seq<(string, Json)>>)
    ensures Lookup(fields, key).None? ==> r == Ok([])
    ensures r.Err? ==> r.error == AttributeError
  {
    match Lookup(fields, key)
    case None => Ok([])
    case Some(Obj(inner)) => Ok(inner)
    case Some(_) => Err(AttributeError)
  }

  /** `int(core.get(key, default) or default)`: a missing or falsy value
      (null, 0, false, "", an empty list or object) is the default; a string
      that is not a number raises `ValueError`, a list or object `TypeError`. */
  function IntOr(core: seq<(string, Json)>, key: string, default: int): (r: Result<int>)
    ensures Lookup(core, key).None? ==> r == Ok(default)
    ensures Lookup(core, key) == Some(Int(0)) ==> r == Ok(default)
    ensures forall n | Lookup(core, key) == Some(Int(n)) && n != 0 :: r == Ok(n)
    ensures r.Err? ==> r.error in {ValueError, TypeError}
  {
    var v := Lookup(core, key).GetOr(Int(default));
    if !Truthy(v) then Ok(default)
    else match PyInt(v)
      case Some(n) => Ok(n)
      case None => Err(if v.Str? then ValueError else TypeError)
  }

  /** `max(0, reset - now) + 1`. */
  function WaitSeconds(reset: int, now: int): (w: int)
    ensures w >= 1
    ensures now <= reset ==> now + w == reset + 1
  {
    (if reset - now > 0 then reset - now else 0) + 1
  }

  /** The payload `_await_rate_limit_if_needed` reads: the decoded object when
      the response says it is JSON and decodes to an object, otherwise a
      payload with no resources. `None` when decoding raised, which the
      function swallows. */
  function RatePayload(resp: Response): Option<seq<(string, Json)>> {
    if Text.StartsWith(HeaderOrEmpty(resp, ContentTypeHeader), "application/json") then
      match DecodeBody(resp)
      case Err(_) => None
      case Ok(Obj(fields)) => Some(fields)
      case Ok(_) => Some([("resources", Obj([]))])
    else Some([("resources", Obj([]))])
  }

  /** What the payload says to wait: `Some(seconds)` when `remaining <= 0`
      and `reset > 0`, `None` otherwise, both read through `IntOr`; errors
      from reading it escape. */
  function WaitFor(payload: seq<(string, Json)>, now: int): (r: Result<Option<int>>)
    ensures r.Ok? && r.value.Some? ==> r.value.value >= 1
    ensures r.Err? ==> r.error in {AttributeError, ValueError, TypeError}
  {
    var resources :- SubObject(payload, "resources");
    var core :- SubObject(resources, "core");
    var remaining :- IntOr(core, "remaining", 1);
    var reset :- IntOr(core, "reset", 0);
    if remaining <= 0 && reset > 0 then Ok(Some(WaitSeconds(reset, now))) else Ok(None)
  }

  /** `_await_rate_limit_if_needed`: one `GET /rate_limit`; a failed request
      or a body that does not decode means no wait. */
  function AwaitRateLimit(script: seq<Reply>): (s: Step<Option<int>>)
    ensures s.used <= 1 && s.used <= |script|
    ensures script != [] && script[0].Broken? ==> s == Step(Ok(None), 1)
    ensures s.result.Err? ==> s.result.error in {AttributeError, ValueError, TypeError, NoReply}
  {
    if script == [] then Step(Err(NoReply), 0)
    else match script[0]
      case Broken => Step(Ok(None), 1)
      case Answer(resp, at) =>
        match RatePayload(resp)
        case None => Step(Ok(None), 1)
        case Some(payload) => Step(WaitFor(payload, at), 1)
  }

  /** The rate-limit body GitHub sends, with `remaining` and `reset` as
      numbers. */
  function RateBody(remaining: int, reset: int): Json {
    Obj([("resources", Obj([("core", Obj([("remaining", Int(remaining)), ("reset", Int(reset))]))]))])
  }

  /** The wait fires exactly for a negative `remaining` with a positive
      `reset`: a reported `remaining` of 0 is read as 1, so an exhausted
      quota does not make the guard wait. */
  lemma RateLimitWaitsIff(remaining: int, reset: int, now: int)
    ensures WaitFor(RateBody(remaining, reset).fields, now) ==
            Ok(if remaining < 0 && reset > 0 then Some(WaitSeconds(reset, now)) else None)
  {
    CoreFields(remaining, reset);
  }

  /** The quota GitHub reports once it is spent, none left and the reset ten
      seconds away, lets the guard go on at once; a `remaining` of -1 with
      the same reset waits eleven seconds. */
  lemma ExhaustedQuotaNoWait()
    ensures WaitFor(RateBody(0, 1700000010).fields, 1700000000) == Ok(None)
    ensures WaitFor(RateBody(-1, 1700000010).fields, 1700000000) == Ok(Some(11))
  {
    RateLimitWaitsIff(0, 1700000010, 1700000000);
    RateLimitWaitsIff(-1, 1700000010, 1700000000);
  }

  /** The two fields of the `core` object of `RateBody`. */
  lemma CoreFields(remaining: int, reset: int)
    ensures var core := [("remaining", Int(remaining)), ("reset", Int(reset))];
            Lookup(core, "remaining") == Some(Int(remaining)) && Lookup(core, "reset") == Some(Int(reset))
  {
    var core := [("remaining", Int(remaining)), ("reset", Int(reset))];
    assert core[1..] == [("reset", Int(reset))];
  }

  // ---------------------------------------------------------------------------
  // Permission probe
  // ---------------------------------------------------------------------------

  /** Which value a probe path is built on. */
  datatype Owner = RepoOwner | OrgOwner

  /** A probe endpoint: `"/repos/{repo}" + tail` or `"/orgs/{org}" + tail`. */
  datatype Endpoint = Endpoint(owner: Owner, tail: string)

  /** `PROBE_ENDPOINT_BY_OP`. */
  const ProbeEndpoints: map<string, Endpoint> := map[
    "releases" := Endpoint(RepoOwner, "/releases?per_page=1"),
    "cache" := Endpoint(RepoOwner, "/actions/caches?per_page=1"),
    "workflow-runs" := Endpoint(RepoOwner, "/actions/runs?per_page=1"),
    "clear-vulns" := Endpoint(RepoOwner, "/code-scanning/alerts?per_page=1"),
    "packages-list" := Endpoint(OrgOwner, "/packages?per_page=1"),
    "packages-delete" := Endpoint(OrgOwner, "/packages?per_page=1")]

  /** The URL `_probe_permissions` would request, or `None` when the
      operation has no probe or the value its path needs is missing. The
      `params={"per_page": 1}` that `session.get` appends to the query
      string is not part of this URL. */
  function ProbeUrl(op: string, repo: Option<string>, org: Option<string>): (url: Option<string>)
    ensures op !in ProbeEndpoints ==> url.None?
    ensures url.Some? ==> op in ProbeEndpoints && Text.StartsWith(url.value, GithubApi)
  {
    if op !in ProbeEndpoints then None
    else
      var e := ProbeEndpoints[op];
      match e.owner
      case RepoOwner =>
        if repo.None? || repo.value == [] then None
        else Some(GithubApi + "/repos/" + repo.value + e.tail)
      case OrgOwner =>
        if org.None? || org.value == [] then None
        else Some(GithubApi + "/orgs/" + org.value + e.tail)
  }

  /** A probe URL is the API root, the owner's path, then the endpoint's
      tail. */
  lemma ProbeUrlShape(op: string, repo: string, org: string)
    requires op in ProbeEndpoints
    ensures var e := ProbeEndpoints[op];
            var owner := if e.owner.RepoOwner? then "/repos/" + repo else "/orgs/" + org;
            (if e.owner.RepoOwner? then repo else org) != [] ==>
              ProbeUrl(op, Some(repo), Some(org)) == Some(GithubApi + owner + e.tail)
  {
    assert GithubApi + "/repos/" + repo + ProbeEndpoints[op].tail == GithubApi + ("/repos/" + repo) + ProbeEndpoints[op].tail;
    assert GithubApi + "/orgs/" + org + ProbeEndpoints[op].tail == GithubApi + ("/orgs/" + org) + ProbeEndpoints[op].tail;
  }

  /** How a probe ended; each is only logged. */
  datatype Probe = NotSent | Unreachable | Denied | HttpError(status: int) | Allowed

  /** `_probe_permissions`: at most one `GET`, and nothing it observes
      raises. */
  function ProbePermissions(op: string, repo: Option<string>, org: Option<string>, script: seq<Reply>): (s: Step<Probe>)
    ensures ProbeUrl(op, repo, org).None? ==> s == Step(Ok(NotSent), 0)
    ensures s.used <= 1 && s.used <= |script|
    ensures s.result.Err? ==> s.result.error == NoReply
    ensures s.result.Ok? && s.result.value != NotSent ==> s.used == 1
  {
    if ProbeUrl(op, repo, org).None? then Step(Ok(NotSent), 0)
    else if script == [] then Step(Err(NoReply), 0)
    else match script[0]
      case Broken => Step(Ok(Unreachable), 1)
      case Answer(resp, _) =>
        if resp.status == 403 then Step(Ok(Denied), 1)
        else if resp.status >= 400 then Step(Ok(HttpError(resp.status)), 1)
        else Step(Ok(Allowed), 1)
  }

  /** A 403 and every other status of 400 or more are reported, never
      raised. */
  lemma ProbeNeverRaises(op: string, repo: Option<string>, org: Option<string>, resp: Response, at: int, rest: seq<Reply>)
    requires ProbeUrl(op, repo, org).Some?
    ensures var s := ProbePermissions(op, repo, org, [Answer(resp, at)] + rest);
            s.used == 1
            && (resp.status == 403 ==> s.result == Ok(Denied))
            && (resp.status >= 400 && resp.status != 403 ==> s.result == Ok(HttpError(resp.status)))
  {
  }

  // ---------------------------------------------------------------------------
  // ensure_github_token_ready and the decorator
  // ---------------------------------------------------------------------------

  /** One `GET` the guard sends: `GET /user`, `GET /rate_limit`, or the
      probe of the given URL. */
  datatype Sent = UserRequest | RateLimitRequest | ProbeRequest(url: string)

  /** What `ensure_github_token_ready` did: the session headers or the
      exception, the requests it sent in order, the seconds it slept, and
      the probe's outcome. */
  datatype Ready = Ready(result: Result<map<string, string>>, urls: seq<Sent>, slept: Option<int>, probe: Probe)

  /** The part of `ensure_github_token_ready` after the scopes passed: the
      rate-limit check, then the probe when `op_name` is given. */
  function CheckThenProbe(headers: map<string, string>, repo: Option<string>, org: Option<string>,
                          opName: Option<string>, script: seq<Reply>): (r: Ready)
    ensures r.result.Ok? ==> r.result.value == headers
    ensures r.result.Ok? ==> |r.urls| >= 1 && r.urls[0] == RateLimitRequest
    ensures r.probe != NotSent ==> opName.Some? && ProbeUrl(opName.value, repo, org).Some? && |r.urls| == 2 && r.urls[1] == ProbeRequest(ProbeUrl(opName.value, repo, org).value)
  {
    var rate := AwaitRateLimit(script);
    var seen := [RateLimitRequest][..rate.used];
    if rate.result.Err? then Ready(Err(rate.result.error), seen, None, NotSent)
    else if opName.None? || opName.value == [] then Ready(Ok(headers), seen, rate.result.value, NotSent)
    else
      var probe := ProbePermissions(opName.value, repo, org, script[rate.used..]);
      var probed := if probe.used == 1 then seen + [ProbeRequest(ProbeUrl(opName.value, repo, org).value)] else seen;
      if probe.result.Err? then Ready(Err(probe.result.error), probed, rate.result.value, NotSent)
      else Ready(Ok(headers), probed, rate.result.value, probe.result.value)
  }

  /** `ensure_github_token_ready(token, required, repo=, org=, op_name=)`:
      build the session, fetch the scopes, validate them, check the rate
      limit, then probe when `op_name` is given. Each step that raises stops
      the rest. */
  function EnsureReady(token: string, required: Option<set<string>>, repo: Option<string>, org: Option<string>,
                       opName: Option<string>, script: seq<Reply>): (r: Ready)
    ensures token == [] ==> r == Ready(Err(ValueError), [], None, NotSent)
    ensures r.result.Ok? ==> r.result.value == SessionHeaders(token)
    ensures r.result.Ok? ==> |r.urls| >= 2 && r.urls[0] == UserRequest && r.urls[1] == RateLimitRequest
    ensures r.probe != NotSent ==> opName.Some? && ProbeUrl(opName.value, repo, org).Some?
                                   && |r.urls| == 3 && r.urls[2] == ProbeRequest(ProbeUrl(opName.value, repo, org).value)
  {
    match BuildSession(token)
    case Err(e) => Ready(Err(e), [], None, NotSent)
    case Ok(headers) =>
      var scopes := FetchScopes(script);
      if scopes.result.Err? then Ready(Err(scopes.result.error), [UserRequest][..scopes.used], None, NotSent)
      else match ValidateScopes(scopes.result.value, required.GetOr({}))
        case Err(e) => Ready(Err(e), [UserRequest], None, NotSent)
        case Ok(_) =>
          var rest := CheckThenProbe(headers, repo, org, opName, script[1..]);
          rest.(urls := [UserRequest] + rest.urls)
  }

  /** The tail of the trace once the scopes passed. */
  lemma EnsureReadyAfterScopes(token: string, required: Option<set<string>>, repo: Option<string>, org: Option<string>,
                               opName: Option<string>, script: seq<Reply>)
    requires token != [] && FetchScopes(script).result.Ok?
    requires ValidateScopes(FetchScopes(script).result.value, required.GetOr({})).Ok?
    ensures var r := EnsureReady(token, required, repo, org, opName, script);
            var rest := CheckThenProbe(SessionHeaders(token), repo, org, opName, script[1..]);
            r == rest.(urls := [UserRequest] + rest.urls)
  {
  }

  /** A token lacking a required scope is refused after the single
      `GET /user`: the rate limit is not checked and nothing is probed. */
  lemma EnsureReadyStopsOnScopes(token: string, required: set<string>, repo: Option<string>, org: Option<string>,
                                 opName: Option<string>, script: seq<Reply>)
    requires token != [] && FetchScopes(script).result.Ok?
    requires var t := FetchScopes(script).result.value;
             t != {} && !(required <= t)
    ensures var r := EnsureReady(token, Some(required), repo, org, opName, script);
            var t := FetchScopes(script).result.value;
            r == Ready(Err(TokenScopeError), [UserRequest], None, NotSent)
  {
  }

  /** `REQUIRED_SCOPES_BY_OP`. */
  const RequiredScopesByOp: map<string, set<string>> := map[
    "releases" := {"repo"},
    "cache" := {"repo"},
    "workflow-runs" := {"repo", "workflow"},
    "packages-list" := {"read:packages"},
    "packages-delete" := {"delete:packages"},
    "clear-vulns" := {"security_events"}]

  /** The scopes the decorator requires: `{"repo"}` for an unknown
      operation. */
  function RequiredScopes(op: string): (s: set<string>)
    ensures op !in RequiredScopesByOp ==> s == {"repo"}
    ensures s != {}
  {
    if op in RequiredScopesByOp then RequiredScopesByOp[op] else {"repo"}
  }

  /** The wrapper `requires_github_scopes(op, repo=, org=)` puts around a
      function: `kwargs.get("token") or kwargs.get("github_token") or ""`
      must be non-empty (else `ValueError` before any session is built),
      then `ensure_github_token_ready` runs with the operation's scopes and
      its probe. The wrapped function itself is not modelled. */
  function GuardCall(op: string, repo: Option<string>, org: Option<string>,
                     tokenArg: Option<string>, githubTokenArg: Option<string>, script: seq<Reply>): (r: Ready)
    ensures (tokenArg.None? || tokenArg.value == []) && (githubTokenArg.None? || githubTokenArg.value == []) ==>
              r == Ready(Err(ValueError), [], None, NotSent)
  {
    var token := if tokenArg.Some? && tokenArg.value != [] then tokenArg.value
                 else if githubTokenArg.Some? then githubTokenArg.value else "";
    if token == [] then Ready(Err(ValueError), [], None, NotSent)
    else EnsureReady(token, Some(RequiredScopes(op)), repo, org, Some(op), script)
  }

  /** A non-empty `token` argument wins over `github_token`, which is used
      only in its place; the guard then runs the operation's own scopes and
      probe. */
  lemma GuardTokenPrecedence(op: string, repo: Option<string>, org: Option<string>,
                             token: string, other: Option<string>, script: seq<Reply>)
    requires token != []
    ensures GuardCall(op, repo, org, Some(token), other, script)
            == EnsureReady(token, Some(RequiredScopes(op)), repo, org, Some(op), script)
    ensures GuardCall(op, repo, org, None, Some(token), script)
            == GuardCall(op, repo, org, Some(""), Some(token), script)
            == GuardCall(op, repo, org, Some(token), None, script)
  {
  }

  /** `REQUIRED_SCOPES_BY_OP`, entry by entry: the six operations and the
      scopes each needs. */
  lemma RequiredScopesTable()
    ensures RequiredScopesByOp.Keys == {"releases", "cache", "workflow-runs", "packages-list", "packages-delete", "clear-vulns"}
    ensures RequiredScopes("releases") == {"repo"} && RequiredScopes("cache") == {"repo"}
    ensures RequiredScopes("workflow-runs") == {"repo", "workflow"}
    ensures RequiredScopes("packages-list") == {"read:packages"}
    ensures RequiredScopes("packages-delete") == {"delete:packages"}
    ensures RequiredScopes("clear-vulns") == {"security_events"}
  {
  }

  /** `PROBE_ENDPOINT_BY_OP`, entry by entry: the same six operations, the
      repository ones probed under `/repos/{repo}` and the package ones
      under `/orgs/{org}`. */
  lemma ProbeEndpointsTable(repo: string, org: string)
    requires repo != [] && org != []
    ensures ProbeEndpoints.Keys == RequiredScopesByOp.Keys
    ensures ProbeUrl("releases", Some(repo), Some(org)) == Some(GithubApi + "/repos/" + repo + "/releases?per_page=1")
    ensures ProbeUrl("cache", Some(repo), Some(org)) == Some(GithubApi + "/repos/" + repo + "/actions/caches?per_page=1")
    ensures ProbeUrl("workflow-runs", Some(repo), Some(org)) == Some(GithubApi + "/repos/" + repo + "/actions/runs?per_page=1")
    ensures ProbeUrl("clear-vulns", Some(repo), Some(org)) == Some(GithubApi + "/repos/" + repo + "/code-scanning/alerts?per_page=1")
    ensures ProbeUrl("packages-list", Some(repo), Some(org)) == Some(GithubApi + "/orgs/" + org + "/packages?per_page=1")
    ensures ProbeUrl("packages-delete", Some(repo), Some(org)) == Some(GithubApi + "/orgs/" + org + "/packages?per_page=1")
  {
  }

  /** An operation the guard does not know still needs the `repo` scope, and
      has no probe. */
  lemma GuardUnknownOperation(op: string, repo: Option<string>, org: Option<string>, token: string, script: seq<Reply>)
    requires op !in RequiredScopesByOp && op !in ProbeEndpoints && token != []
    ensures var r := GuardCall(op, repo, org, Some(token), None, script);
            r == EnsureReady(token, Some({"repo"}), repo, org, Some(op), script) && r.probe == NotSent
  {
    assert RequiredScopes(op) == {"repo"};
  }
}
