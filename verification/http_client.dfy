/** The shared GitHub HTTP client: token lookup, standard headers, URL
    building, the rate-limit wait, exponential backoff, and the retrying
    request executor. The executor is written once with a `Policy` because
    the social client runs the same loop but raises where the shared client
    hands the response back.
 */
module HttpClient {
  import opened Outcome
  import opened Http
  import Text

  /** Headers every request carries before `Authorization` and the caller's extras. */
  const DefaultHeaders: map<string, string> := map[
    "Accept" := "application/vnd.github+json",
    "X-GitHub-Api-Version" := "2022-11-28",
    "User-Agent" := "BiosaLabs-ForgeOpsManager/1.0"
  ]

  /** Statuses `request` accepts when the caller names none (an empty set counts as none). */
  const DefaultExpected: set<int> := {200, 201, 202, 204}

  /** `gh_token_from_env`: `(GH_TOKEN or GITHUB_TOKEN or "").strip()`, and a
      `RuntimeError` when that is empty. */
  function TokenFromEnv(env: Env): (r: Result<string>)
    ensures r.Ok? ==> r.value != [] && Text.Strip(r.value) == r.value
    ensures r.Err? ==> r.error == RuntimeError
  {
    var g := EnvOrEmpty(env, "GH_TOKEN");
    var chosen := if g != [] then g else EnvOrEmpty(env, "GITHUB_TOKEN");
    var t := Text.Strip(chosen);
    Text.StripIdempotent(chosen);
    if t == [] then Err(RuntimeError) else Ok(t)
  }

  /** Which variable the token comes from: a `GH_TOKEN` that is not blank
      wins; an empty or unset one defers to `GITHUB_TOKEN`; with both blank
      the lookup fails. */
  lemma TokenFromEnvChooses(env: Env)
    ensures !Text.IsBlank(EnvOrEmpty(env, "GH_TOKEN")) ==>
              TokenFromEnv(env) == Ok(Text.Strip(EnvOrEmpty(env, "GH_TOKEN")))
    ensures EnvOrEmpty(env, "GH_TOKEN") == [] ==>
              TokenFromEnv(env).Ok? == !Text.IsBlank(EnvOrEmpty(env, "GITHUB_TOKEN"))
    ensures EnvOrEmpty(env, "GH_TOKEN") == [] && TokenFromEnv(env).Ok? ==>
              TokenFromEnv(env).value == Text.Strip(EnvOrEmpty(env, "GITHUB_TOKEN"))
    ensures Text.IsBlank(EnvOrEmpty(env, "GH_TOKEN")) && Text.IsBlank(EnvOrEmpty(env, "GITHUB_TOKEN")) ==>
              TokenFromEnv(env).Err?
  {
    var g := EnvOrEmpty(env, "GH_TOKEN");
    if g != [] {
      assert Text.IsBlank(g) <==> Text.Strip(g) == [];
    }
  }

  /** A `GH_TOKEN` made only of spaces is truthy, so it hides a valid
      `GITHUB_TOKEN` and the lookup fails. */
  lemma BlankGhTokenHidesGithubToken(env: Env)
    requires "GH_TOKEN" in env && env["GH_TOKEN"] != [] && Text.IsBlank(env["GH_TOKEN"])
    ensures TokenFromEnv(env) == Err(RuntimeError)
  {
  }

  /** `token or gh_token_from_env()`: an explicit non-empty token wins over the environment. */
  function ResolveToken(token: string, env: Env): (r: Result<string>)
    ensures token != [] ==> r == Ok(token)
    ensures token == [] ==> r == TokenFromEnv(env)
  {
    if token != [] then Ok(token) else TokenFromEnv(env)
  }

  /** `build_github_headers(token=token, extra=extra)`. An explicit empty token
      falls back to the environment, like `None`. */
  function BuildGithubHeaders(token: string, env: Env, extra: map<string, string>): (r: Result<map<string, string>>)
    ensures r.Ok? <==> ResolveToken(token, env).Ok?
    ensures r.Err? ==> r.error == RuntimeError
    ensures r.Ok? ==> forall k | k in DefaultHeaders || k == "Authorization" || k in extra :: k in r.value
    ensures r.Ok? ==> forall k | k in extra :: r.value[k] == extra[k]
    ensures r.Ok? ==> forall k | k in DefaultHeaders && k !in extra && k != "Authorization" :: r.value[k] == DefaultHeaders[k]
    ensures r.Ok? && "Authorization" !in extra ==>
              r.value["Authorization"] == "Bearer " + Text.Strip(ResolveToken(token, env).value)
  {
    var src := ResolveToken(token, env);
    if src.Err? then Err(RuntimeError)
    else
      var base := DefaultHeaders["Authorization" := "Bearer " + Text.Strip(src.value)];
      Ok(base + extra)
  }

  /** An explicit token of blanks is truthy and bypasses the environment, yet
      strips to nothing: the request goes out with a bare `Bearer ` header. */
  lemma BlankExplicitTokenSendsEmptyBearer(env: Env)
    ensures BuildGithubHeaders("  ", env, map[]).Ok?
    ensures BuildGithubHeaders("  ", env, map[]).value["Authorization"] == "Bearer "
  {
    assert ResolveToken("  ", env) == Ok("  ");
    assert Text.IsBlank("  ");
    var h := BuildGithubHeaders("  ", env, map[]);
    assert h.value["Authorization"] == "Bearer " + Text.Strip("  ");
  }

  /** `build_github_url(path)`. */
  function BuildGithubUrl(path: string): (r: Result<string>)
    ensures path == [] <==> r == Err(ValueError)
    ensures r.Ok? ==> Text.StartsWith(r.value, "http://") || Text.StartsWith(r.value, "https://")
    ensures (Text.StartsWith(path, "http://") || Text.StartsWith(path, "https://")) ==> r == Ok(path)
    ensures path != [] && !Text.StartsWith(path, "http://") && !Text.StartsWith(path, "https://") ==>
              r.Ok? && Text.StartsWith(r.value, GithubApi + "/")
              && |r.value| >= |path| && r.value[|r.value| - |path|..] == path
  {
    if path == [] then Err(ValueError)
    else if Text.StartsWith(path, "http://") || Text.StartsWith(path, "https://") then Ok(path)
    else
      var rel := if Text.StartsWith(path, "/") then path else "/" + path;
      var u := GithubApi + rel;
      assert u[..|GithubApi + "/"|] == GithubApi + "/";
      assert u[..8] == "https://";
      Ok(u)
  }

  /** Building a URL from a URL changes nothing. */
  lemma BuildGithubUrlIdempotent(path: string)
    requires BuildGithubUrl(path).Ok?
    ensures BuildGithubUrl(BuildGithubUrl(path).value) == BuildGithubUrl(path)
  {
  }

  /** `_handle_rate_limit`: when both rate-limit headers are present (in any
      spelling: `headers` is keyed by lower-cased name), both parse with
      `int()` and no calls remain, the seconds to sleep at wall clock `now`;
      otherwise no wait. */
  function RateLimitWait(headers: map<string, string>, now: int): (r: Option<nat>)
    ensures r.Some? <==>
              RateRemainingHeader in headers && RateResetHeader in headers
              && Text.ParseInt(headers[RateRemainingHeader]).Some?
              && Text.ParseInt(headers[RateResetHeader]).Some?
              && Text.ParseInt(headers[RateRemainingHeader]).value <= 0
    ensures r.Some? ==> r.value >= 1 && now + r.value > Text.ParseInt(headers[RateResetHeader]).value
    ensures r.Some? && Text.ParseInt(headers[RateResetHeader]).value <= now ==> r.value == 1
  {
    if RateRemainingHeader !in headers || RateResetHeader !in headers then None
    else
      match (Text.ParseInt(headers[RateRemainingHeader]), Text.ParseInt(headers[RateResetHeader]))
      case (Some(rem), Some(reset)) =>
        if rem > 0 then None
        else Some((if reset - now > 0 then reset - now else 0) + 1)
      case _ => None
  }

  /** The sleep ends exactly one second after the advertised reset when that
      lies in the future. */
  lemma RateLimitWaitEndsAfterReset(headers: map<string, string>, now: int)
    requires RateLimitWait(headers, now).Some?
    ensures now + RateLimitWait(headers, now).value == Text.ParseInt(headers[RateResetHeader]).value + 1
            || (RateLimitWait(headers, now).value == 1 && Text.ParseInt(headers[RateResetHeader]).value <= now)
  {
  }

  /** A spent quota with a reset in the future waits until one second past
      the reset, whatever case the server wrote the header names in. */
  lemma SpentQuotaWaitsUntilReset(headers: map<string, string>, r: int, now: int)
    requires RateRemainingHeader in headers && Text.ParseInt(headers[RateRemainingHeader]) == Some(0)
    requires RateResetHeader in headers && Text.ParseInt(headers[RateResetHeader]) == Some(r) && r > now
    ensures RateLimitWait(headers, now) == Some(r - now + 1)
  {
  }

  function Pow2(n: nat): (r: nat)
    ensures r >= 1
  {
    if n == 0 then 1 else 2 * Pow2(n - 1)
  }

  /** The deterministic part of `_backoff_seconds(attempt)`, in milliseconds:
      `min(30, 0.5 * 2 ** (attempt - 1))` seconds. The social client uses
      `max(0, attempt - 1)`, which agrees for every attempt it passes. */
  function BackoffBaseMs(attempt: nat): (r: nat)
    ensures 500 <= r <= 30000
  {
    var e := if attempt >= 1 then attempt - 1 else 0;
    if 500 * Pow2(e) < 30000 then 500 * Pow2(e) else 30000
  }

  lemma {:induction false} Pow2Monotone(a: nat, b: nat)
    requires a <= b
    ensures Pow2(a) <= Pow2(b)
    decreases b
  {
    if a < b {
      Pow2Monotone(a, b - 1);
    }
  }

  /** Backoff never shrinks from one attempt to the next. */
  lemma BackoffMonotone(a: nat, b: nat)
    requires a <= b
    ensures BackoffBaseMs(a) <= BackoffBaseMs(b)
  {
    var ea := if a >= 1 then a - 1 else 0;
    var eb := if b >= 1 then b - 1 else 0;
    Pow2Monotone(ea, eb);
  }

  /** Backoff doubles until it reaches the 30-second cap, from the seventh attempt on. */
  lemma {:induction false} BackoffDoublesThenCaps(attempt: nat)
    requires attempt >= 1
    ensures attempt <= 6 ==> BackoffBaseMs(attempt) == 500 * Pow2(attempt - 1)
    ensures attempt >= 7 ==> BackoffBaseMs(attempt) == 30000
  {
    if attempt >= 7 {
      Pow2Monotone(6, attempt - 1);
      assert Pow2(6) == 64;
    } else {
      Pow2Monotone(attempt - 1, 5);
      assert Pow2(5) == 32;
    }
  }

  /** How a client reacts to a final, non-retried reply. */
  datatype Policy =
      /** `http_client.request`: unexpected statuses come back to the caller;
          a transport failure re-raises. */
      Lenient
      /** `GitHubSocialService._request`: 401/403 raise `AuthenticationError`,
          anything else unexpected raises `GitHubAPIError`. */
    | Strict

  /** A sleep the executor performs. */
  datatype Pause = RateWait(seconds: nat) | Backoff(attempt: nat)

  /** The result of one logical request: the outcome, how many replies of the
      script it consumed, and the sleeps in order. */
  datatype Exchange = Exchange(result: Result<Response>, used: nat, pauses: seq<Pause>)

  /** A reply that makes the loop try again while attempts remain. */
  predicate Retries(policy: Policy, expected: set<int>, reply: Reply) {
    match reply
    case Broken => true
    case Answer(resp, _) =>
      resp.status !in expected
      && !(policy.Strict? && resp.status in {401, 403})
      && resp.status in RetryableStatus
  }

  /** What a reply produces once it is not retried. */
  function Settle(policy: Policy, expected: set<int>, reply: Reply): (r: Result<Response>)
    ensures r.Ok? ==> reply.Answer? && r.value == reply.resp
    ensures policy.Strict? && r.Ok? ==> r.value.status in expected
    ensures reply.Answer? && reply.resp.status in expected ==> r == Ok(reply.resp)
    ensures policy.Strict? && r.Err? ==> r.error in {AuthError, ApiError}
    ensures r == Err(AuthError) ==> reply.Answer? && reply.resp.status in {401, 403}
  {
    match reply
    case Broken => if policy.Lenient? then Err(TransportError) else Err(ApiError)
    case Answer(resp, _) =>
      if resp.status in expected then Ok(resp)
      else if policy.Strict? && resp.status in {401, 403} then Err(AuthError)
      else if policy.Lenient? then Ok(resp)
      else Err(ApiError)
  }

  function RatePauses(reply: Reply): seq<Pause> {
    match reply
    case Broken => []
    case Answer(resp, at) =>
      var w := RateLimitWait(resp.headers, at);
      if w.Some? then [RateWait(w.value)] else []
  }

  /** The retry loop from attempt number `attempt` on. */
  function Send(policy: Policy, expected: set<int>, script: seq<Reply>, attempt: nat): (x: Exchange)
    requires 1 <= attempt <= MaxRetries + 1
    ensures x.used <= |script| && x.used <= MaxRetries + 2 - attempt
    ensures x.used == 0 <==> script == []
    ensures x.result == Err(NoReply) ==> x.used == |script|
    ensures x.result != Err(NoReply) ==>
              x.used >= 1 && x.result == Settle(policy, expected, script[x.used - 1])
              && (!Retries(policy, expected, script[x.used - 1]) || attempt + x.used - 1 == MaxRetries + 1)
    decreases MaxRetries + 1 - attempt
  {
    if script == [] then Exchange(Err(NoReply), 0, [])
    else
      var reply := script[0];
      var pre := RatePauses(reply);
      if Retries(policy, expected, reply) && attempt <= MaxRetries then
        var rest := Send(policy, expected, script[1..], attempt + 1);
        assert rest.result != Err(NoReply) ==> script[1..][rest.used - 1] == script[rest.used];
        Exchange(rest.result, rest.used + 1, pre + [Backoff(attempt)] + rest.pauses)
      else
        var r := Settle(policy, expected, reply);
        assert r != Err(NoReply);
        Exchange(r, 1, pre)
  }

  /** A loop that ends on a reply it would have retried has reached its
      last attempt, and under the social client's policy that reply raises
      `GitHubAPIError`. */
  lemma SendEndsAtCeiling(policy: Policy, expected: set<int>, script: seq<Reply>)
    requires Send(policy, expected, script, 1).result != Err(NoReply)
    requires Retries(policy, expected, script[Send(policy, expected, script, 1).used - 1])
    ensures Send(policy, expected, script, 1).used == MaxRetries + 1
    ensures policy.Strict? ==> Send(policy, expected, script, 1).result == Err(ApiError)
  {
    var x := Send(policy, expected, script, 1);
    var last := script[x.used - 1];
    assert x.result == Settle(policy, expected, last);
    if policy.Strict? && last.Answer? {
      assert last.resp.status !in expected && last.resp.status !in {401, 403};
    }
  }

  /** Every reply before the last one consumed was retried, and so was
      every reply when the loop ran out of them. */
  predicate RetriedBefore(policy: Policy, expected: set<int>, script: seq<Reply>, x: Exchange)
    requires x.used <= |script|
  {
    (forall i | 0 <= i < x.used - 1 :: Retries(policy, expected, script[i]))
    && (x.result == Err(NoReply) ==> forall i | 0 <= i < x.used :: Retries(policy, expected, script[i]))
  }

  /** The retry step of `SendRetriedEarlier`. */
  lemma SendRetriedStep(policy: Policy, expected: set<int>, script: seq<Reply>, attempt: nat)
    requires 1 <= attempt <= MaxRetries && script != [] && Retries(policy, expected, script[0])
    requires RetriedBefore(policy, expected, script[1..], Send(policy, expected, script[1..], attempt + 1))
    ensures RetriedBefore(policy, expected, script, Send(policy, expected, script, attempt))
  {
    var rest := Send(policy, expected, script[1..], attempt + 1);
    assert Send(policy, expected, script, attempt).used == rest.used + 1;
    assert Send(policy, expected, script, attempt).result == rest.result;
    assert forall i | 1 <= i <= rest.used :: script[i] == script[1..][i - 1];
  }

  lemma {:induction false} SendRetriedEarlier(policy: Policy, expected: set<int>, script: seq<Reply>, attempt: nat)
    requires 1 <= attempt <= MaxRetries + 1
    ensures RetriedBefore(policy, expected, script, Send(policy, expected, script, attempt))
    decreases MaxRetries + 1 - attempt
  {
    if script != [] && Retries(policy, expected, script[0]) && attempt <= MaxRetries {
      SendRetriedEarlier(policy, expected, script[1..], attempt + 1);
      SendRetriedStep(policy, expected, script, attempt);
    } else if script != [] {
      assert Settle(policy, expected, script[0]) != Err(NoReply);
    }
  }

  /** `http_client.request(...)`: headers are built first (a missing token
      fails before anything is sent), then the retry loop runs. */
  function Request(token: string, env: Env, expected: set<int>, script: seq<Reply>): (x: Exchange)
    ensures ResolveToken(token, env).Err? ==> x == Exchange(Err(RuntimeError), 0, [])
    ensures x.used <= MaxRetries + 1 && x.used <= |script|
    ensures x.result.Ok? ==> x.used >= 1 && script[x.used - 1].Answer? && x.result.value == script[x.used - 1].resp
    ensures x.result.Ok? && x.result.value.status !in (if expected == {} then DefaultExpected else expected) ==>
              x.result.value.status !in RetryableStatus || x.used == MaxRetries + 1
    ensures x.result == Err(TransportError) ==> x.used == MaxRetries + 1
  {
    if ResolveToken(token, env).Err? then Exchange(Err(RuntimeError), 0, [])
    else
      var exp := if expected == {} then DefaultExpected else expected;
      var x := Send(Lenient, exp, script, 1);
      assert x.result.Ok? ==> x.result == Settle(Lenient, exp, script[x.used - 1]);
      x
  }

  /** A transient 503 followed by a 200: one backoff, then the 200 comes back. */
  lemma RetryThenSucceed(token: string, env: Env, busy: Response, ok: Response, t: int)
    requires token != []
    requires busy.status == 503 && ok.status == 200
    requires busy.headers == map[] && ok.headers == map[]
    ensures Request(token, env, {}, [Answer(busy, t), Answer(ok, t)]) == Exchange(Ok(ok), 2, [Backoff(1)])
  {
  }

  /** Six transport failures in a row exhaust the retries and re-raise. */
  lemma GivesUpAfterSixFailures(token: string, env: Env)
    requires token != []
    ensures Request(token, env, {}, seq(6, _ => Broken)).result == Err(TransportError)
    ensures Request(token, env, {}, seq(6, _ => Broken)).used == 6
  {
    var s: seq<Reply> := seq(6, _ => Broken);
    assert s[1..] == seq(5, _ => Broken);
    assert s[1..][1..] == seq(4, _ => Broken);
    assert s[1..][1..][1..] == seq(3, _ => Broken);
    assert s[1..][1..][1..][1..] == seq(2, _ => Broken);
    assert s[1..][1..][1..][1..][1..] == seq(1, _ => Broken);
  }
}
