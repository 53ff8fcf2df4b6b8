/** The follow/unfollow service of `src/providers/github/social.py`: its own
    retrying request executor (the shared loop of `HttpClient` under the
    `Strict` policy), a paginator that stops on a short page without a
    `rel="next"` link, the follow and unfollow calls, and the set algebra of
    `sync_followers` with its dry-run and best-effort bookkeeping.

    The whole service shares one HTTP session, so one script of replies
    answers every request of a run in order: the followers listing, the
    following listing, then each follow and each unfollow.
 */
module Social {
  import opened Outcome
  import opened Json
  import opened Http
  import Text
  import Sorting
  import Api
  import HttpClient

  /** The page size used when the caller names none. */
  const DefaultPageSize: int := 100

  /** The marker `_has_link_next` looks for. */
  const RelNext: string := "rel=\"next\""

  /** The configuration a `GitHubSocialService` keeps: its base URL without a
      trailing slash and its clamped page size. */
  datatype Service = Service(baseUrl: string, pageSize: int)

  /** `s.rstrip("/")`. */
  function RStripSlash(s: string): (r: string)
    ensures |r| <= |s| && r == s[..|r|]
    ensures r == [] || r[|r| - 1] != '/'
    ensures forall i | |r| <= i < |s| :: s[i] == '/'
  {
    if s != [] && s[|s| - 1] == '/' then
      var r := RStripSlash(s[..|s| - 1]);
      assert forall i | |r| <= i < |s| - 1 :: s[..|s| - 1][i] == s[i];
      r
    else s
  }

  /** `GitHubSocialService(token, base_url, page_size=page_size)`: an empty
      token raises `AuthenticationError`; the page size is clamped into
      [1, 100]. */
  function NewService(token: string, baseUrl: string, pageSize: int): (r: Result<Service>)
    ensures token == [] <==> r == Err(AuthError)
    ensures r.Ok? ==> 1 <= r.value.pageSize <= 100
    ensures r.Ok? && 1 <= pageSize <= 100 ==> r.value.pageSize == pageSize
    ensures r.Ok? && pageSize < 1 ==> r.value.pageSize == 1
    ensures r.Ok? && pageSize > 100 ==> r.value.pageSize == 100
    ensures r.Ok? ==> r.value.baseUrl == [] || r.value.baseUrl[|r.value.baseUrl| - 1] != '/'
    ensures r.Ok? ==> |r.value.baseUrl| <= |baseUrl| && baseUrl[..|r.value.baseUrl|] == r.value.baseUrl
  {
    if token == [] then Err(AuthError)
    else Ok(Service(RStripSlash(baseUrl), Clamp(pageSize, 1, 100)))
  }

  /** `GitHubSocialService.from_env(env_token_key=key)`: the variable is read
      as `""` when unset and stripped, so a blank one is a missing token. */
  function FromEnv(env: Env, key: string, baseUrl: string, pageSize: int): (r: Result<Service>)
    ensures Text.IsBlank(EnvOrEmpty(env, key)) <==> r == Err(AuthError)
    ensures r.Ok? ==> r == NewService(Text.Strip(EnvOrEmpty(env, key)), baseUrl, pageSize)
  {
    NewService(Text.Strip(EnvOrEmpty(env, key)), baseUrl, pageSize)
  }

  /** One part, stripped, holds `rel="next"`. */
  predicate NextPart(part: string) {
    Text.Contains(Text.Strip(part), RelNext)
  }

  /** Some part, stripped, holds `rel="next"`. */
  predicate MentionsNext(parts: seq<string>) {
    exists i | 0 <= i < |parts| :: NextPart(parts[i])
  }

  /** No parts mention a next page, and any part that mentions one makes
      the header name one. */
  lemma MentionsNextShape(parts: seq<string>)
    ensures parts == [] ==> !MentionsNext(parts)
    ensures forall i | 0 <= i < |parts| && NextPart(parts[i]) :: MentionsNext(parts)
  {
  }

  /** The loop of `_has_link_next` over the comma-separated parts. */
  function ScanParts(parts: seq<string>): (found: bool)
    ensures found <==> MentionsNext(parts)
  {
    if parts == [] then false
    else
      MentionsNextCons(parts);
      if NextPart(parts[0]) then true
      else ScanParts(parts[1..])
  }

  /** A list of parts mentions a next page when its first part does or the
      rest do. */
  lemma MentionsNextCons(parts: seq<string>)
    requires parts != []
    ensures MentionsNext(parts) <==> NextPart(parts[0]) || MentionsNext(parts[1..])
  {
    assert forall i | 1 <= i < |parts| :: parts[i] == parts[1..][i - 1];
    if MentionsNext(parts[1..]) {
      var j :| 0 <= j < |parts[1..]| && NextPart(parts[1..][j]);
      assert NextPart(parts[j + 1]);
    }
  }

  /** `_has_link_next(link_header)`: a substring test on each comma-separated
      part, not a parser of the `Link` header of section 3 of RFC 8288. */
  function HasLinkNext(header: string): (r: bool)
    ensures header == [] ==> !r
    ensures header != [] ==> (r <==> MentionsNext(Text.Split(header, ',')))
  {
    header != [] && ScanParts(Text.Split(header, ','))
  }

  /** A header assembled from comma-free parts has a next link exactly when
      one of its parts, stripped, mentions `rel="next"`. */
  lemma HasLinkNextOfParts(parts: seq<string>)
    requires |parts| >= 1 && Text.Join(parts, ',') != []
    requires forall i | 0 <= i < |parts| :: ',' !in parts[i]
    ensures HasLinkNext(Text.Join(parts, ',')) <==> MentionsNext(parts)
  {
    Text.SplitJoin(parts, ',');
  }

  /** Being a substring test, `rel="next"` inside the target URL counts even
      when the link's own relation is `last`. */
  lemma LinkNextIsSubstringTest(h: string)
    requires h == "<u?" + RelNext + ">; rel=\"last\""
    ensures HasLinkNext(h)
  {
    assert |h| == 26;
    assert h[3..][..|RelNext|] == RelNext;
    assert ',' !in h;
    assert Text.Split(h, ',') == [h];
    Text.StripKeepsTrimmed(h);
  }

  /** The statuses `_request` accepts: `expected_status or {200}`. */
  function Accepted(expected: set<int>): (r: set<int>)
    ensures r != {}
    ensures expected == {} ==> r == {200}
    ensures expected != {} ==> r == expected
  {
    if expected == {} then {200} else expected
  }

  /** `_request(method, path, expected_status=expected)`: the rate-limit
      wait, then return on an accepted status, raise `AuthenticationError`
      on 401/403, retry 429/5xx and transport failures up to five times,
      and raise `GitHubAPIError` otherwise. */
  function Request(expected: set<int>, script: seq<Reply>): (x: HttpClient.Exchange)
    ensures x.used <= MaxRetries + 1 && x.used <= |script|
    ensures x.result.Ok? ==> x.used >= 1 && script[x.used - 1].Answer?
                             && x.result.value == script[x.used - 1].resp
                             && x.result.value.status in Accepted(expected)
  {
    HttpClient.Send(HttpClient.Strict, Accepted(expected), script, 1)
  }

  /** A request raises `AuthenticationError` only on a 401 or 403 answer,
      and otherwise only `GitHubAPIError`. */
  lemma RequestErrors(expected: set<int>, script: seq<Reply>)
    requires Request(expected, script).result.Err?
    ensures var x := Request(expected, script);
            x.result.error in {AuthError, ApiError, NoReply}
            && (x.result == Err(AuthError) ==>
                  x.used >= 1 && script[x.used - 1].Answer? && script[x.used - 1].resp.status in {401, 403})
  {
  }

  /** An accepted status comes back after one request. */
  lemma RequestAcceptsAtOnce(expected: set<int>, resp: Response, at: int, more: seq<Reply>)
    requires resp.status in Accepted(expected)
    ensures Request(expected, [Answer(resp, at)] + more).result == Ok(resp)
    ensures Request(expected, [Answer(resp, at)] + more).used == 1
  {
  }

  /** A 401 or 403 that is not accepted raises without a retry. */
  lemma RequestAuthFailsAtOnce(expected: set<int>, resp: Response, at: int, more: seq<Reply>)
    requires resp.status in {401, 403} && resp.status !in Accepted(expected)
    ensures Request(expected, [Answer(resp, at)] + more).result == Err(AuthError)
    ensures Request(expected, [Answer(resp, at)] + more).used == 1
  {
  }

  /** Any other status outside the retry set raises at once. */
  lemma RequestRejectsAtOnce(expected: set<int>, resp: Response, at: int, more: seq<Reply>)
    requires resp.status !in Accepted(expected) && resp.status !in {401, 403} && resp.status !in RetryableStatus
    ensures Request(expected, [Answer(resp, at)] + more).result == Err(ApiError)
    ensures Request(expected, [Answer(resp, at)] + more).used == 1
  {
  }

  /** A request that ends on a reply the loop would have retried has used
      all six attempts and raises `GitHubAPIError`. */
  lemma RequestRetryCeiling(expected: set<int>, script: seq<Reply>)
    requires Request(expected, script).result != Err(NoReply)
    requires HttpClient.Retries(HttpClient.Strict, Accepted(expected), script[Request(expected, script).used - 1])
    ensures Request(expected, script).used == MaxRetries + 1
    ensures Request(expected, script).result == Err(ApiError)
  {
    var exp := Accepted(expected);
    var x := Request(expected, script);
    assert x == HttpClient.Send(HttpClient.Strict, exp, script, 1);
    assert HttpClient.Retries(HttpClient.Strict, exp, script[x.used - 1]);
    HttpClient.SendEndsAtCeiling(HttpClient.Strict, exp, script);
  }

  /** Every reply before the one a request ends on was retried. */
  lemma RequestRetriedEarlier(expected: set<int>, script: seq<Reply>)
    ensures Request(expected, script).used <= |script|
    ensures forall i | 0 <= i < Request(expected, script).used - 1 ::
              HttpClient.Retries(HttpClient.Strict, Accepted(expected), script[i])
  {
    HttpClient.SendRetriedEarlier(HttpClient.Strict, Accepted(expected), script, 1);
  }

  /** A reply that reports an exhausted quota makes the service sleep before
      it looks at the status. */
  lemma RequestWaitsOnRateLimit(expected: set<int>, resp: Response, at: int, more: seq<Reply>)
    requires HttpClient.RateLimitWait(resp.headers, at).Some?
    ensures |Request(expected, [Answer(resp, at)] + more).pauses| >= 1
    ensures Request(expected, [Answer(resp, at)] + more).pauses[0]
            == HttpClient.RateWait(HttpClient.RateLimitWait(resp.headers, at).value)
  {
    var s := [Answer(resp, at)] + more;
    assert s[0] == Answer(resp, at);
    assert HttpClient.RatePauses(s[0]) == [HttpClient.RateWait(HttpClient.RateLimitWait(resp.headers, at).value)];
  }

  /** One follow or unfollow call: its outcome and the replies it used. */
  datatype Call = Call(result: Result<bool>, used: nat)

  /** `follow_user(username)` and `unfollow_user(username)`: a PUT or DELETE
      on `/user/following/{username}` accepting 204 and 304; the verb does
      not change the outcome. An empty name raises `ValueError` before any
      request. */
  function Toggle(username: string, script: seq<Reply>): (c: Call)
    ensures username == [] <==> c == Call(Err(ValueError), 0)
    ensures c.used <= |script|
    ensures c.result.Ok? ==> c.result.value
  {
    if username == [] then Call(Err(ValueError), 0)
    else
      var x := Request({204, 304}, script);
      match x.result
      case Err(e) => Call(Err(e), x.used)
      case Ok(resp) => Call(Ok(resp.status in {204, 304}), x.used)
  }

  /** A call that succeeds ended on a 204 or 304 answer; one that fails
      after a request raised `AuthenticationError` or `GitHubAPIError`. */
  lemma ToggleAnswered(username: string, script: seq<Reply>)
    ensures var c := Toggle(username, script);
            (c.result.Ok? ==> c.used >= 1 && script[c.used - 1].Answer? && script[c.used - 1].resp.status in {204, 304})
            && (username != [] && c.result.Err? ==> c.result.error in {AuthError, ApiError, NoReply})
  {
    if username != [] && Request({204, 304}, script).result.Err? {
      RequestErrors({204, 304}, script);
    }
  }

  /** Answered at once without a retry, the call reports success exactly when
      the status is 204 or 304. */
  lemma ToggleOkIffStatus(username: string, resp: Response, at: int, more: seq<Reply>)
    requires username != [] && resp.status !in RetryableStatus
    ensures Toggle(username, [Answer(resp, at)] + more).result == Ok(true) <==> resp.status in {204, 304}
    ensures Toggle(username, [Answer(resp, at)] + more).used == 1
  {
    if resp.status in {204, 304} {
      RequestAcceptsAtOnce({204, 304}, resp, at, more);
    } else if resp.status in {401, 403} {
      RequestAuthFailsAtOnce({204, 304}, resp, at, more);
    } else {
      RequestRejectsAtOnce({204, 304}, resp, at, more);
    }
  }

  /** `_safe_json` followed by the list check of `_paginate`: the page's
      objects, or `GitHubAPIError` for a body that is not JSON or not a list. */
  function PageObjects(resp: Response): (r: Result<seq<Json>>)
    ensures r.Ok? <==> resp.body.Some? && resp.body.value.Arr?
    ensures r.Ok? ==> r.value == Api.OnlyDicts(resp.body.value.items)
    ensures r.Err? ==> r.error == ApiError
  {
    if resp.body.Some? && resp.body.value.Arr? then Ok(Api.OnlyDicts(resp.body.value.items))
    else Err(ApiError)
  }

  /** The loop of `_paginate` stops after a page holding fewer than `size`
      objects whose `Link` header has no next relation. */
  predicate LastPage(size: int, count: int, resp: Response) {
    count < size && !HasLinkNext(HeaderOrEmpty(resp, LinkHeader))
  }

  /** Only a short page can be the last; without a `Link` header every
      short page is. */
  lemma LastPageShape(size: int, count: int, resp: Response)
    ensures LastPage(size, count, resp) ==> count < size
    ensures HeaderOrEmpty(resp, LinkHeader) == [] ==> (LastPage(size, count, resp) <==> count < size)
  {
  }

  /** How far `_paginate` got: the objects collected, the pages requested,
      the replies used, and the exception that ended it, if any. */
  datatype Crawl = Crawl(items: seq<Json>, pages: nat, used: nat, failure: Option<Error>)

  /** `_paginate(path)` with the service's page size, requesting pages
      1, 2, 3, ... each through `_request(..., expected_status={200})`. */
  function Paginate(size: int, script: seq<Reply>): (c: Crawl)
    ensures c.used <= |script|
    ensures c.pages >= 1
    ensures forall i | 0 <= i < |c.items| :: c.items[i].Obj?
    ensures c.failure.Some? ==> c.failure.value in {AuthError, ApiError, NoReply}
    decreases |script|
  {
    var x := Request({200}, script);
    if x.result.Err? then Crawl([], 1, x.used, Some(x.result.error))
    else
      var resp := x.result.value;
      match PageObjects(resp)
      case Err(e) => Crawl([], 1, x.used, Some(e))
      case Ok(batch) =>
        // The source tests the stopping condition twice; both tests agree.
        if LastPage(size, |batch|, resp) then Crawl(batch, 1, x.used, None)
        else
          var rest := Paginate(size, script[x.used..]);
          Crawl(batch + rest.items, rest.pages + 1, x.used + rest.used, rest.failure)
  }

  /** A 200 page that is short and carries no next link is the last one. */
  lemma PaginateStops(size: int, resp: Response, at: int, more: seq<Reply>)
    requires resp.status == 200 && resp.body.Some? && resp.body.value.Arr?
    requires LastPage(size, |Api.OnlyDicts(resp.body.value.items)|, resp)
    ensures Paginate(size, [Answer(resp, at)] + more) == Crawl(Api.OnlyDicts(resp.body.value.items), 1, 1, None)
  {
    RequestAcceptsAtOnce({200}, resp, at, more);
  }

  /** A 200 page that is full, or that carries a next link however short it
      is, is followed by the next page. */
  lemma PaginateContinues(size: int, resp: Response, at: int, more: seq<Reply>)
    requires resp.status == 200 && resp.body.Some? && resp.body.value.Arr?
    requires !LastPage(size, |Api.OnlyDicts(resp.body.value.items)|, resp)
    ensures var rest := Paginate(size, more);
            Paginate(size, [Answer(resp, at)] + more)
            == Crawl(Api.OnlyDicts(resp.body.value.items) + rest.items, rest.pages + 1, 1 + rest.used, rest.failure)
  {
    RequestAcceptsAtOnce({200}, resp, at, more);
    assert ([Answer(resp, at)] + more)[1..] == more;
  }

  /** A 200 page whose body is not a JSON list raises `GitHubAPIError`. */
  lemma PaginateRejectsNonList(size: int, resp: Response, at: int, more: seq<Reply>)
    requires resp.status == 200 && !(resp.body.Some? && resp.body.value.Arr?)
    ensures Paginate(size, [Answer(resp, at)] + more) == Crawl([], 1, 1, Some(ApiError))
  {
    RequestAcceptsAtOnce({200}, resp, at, more);
  }

  /** The string `login` fields of the collected objects, in order. */
  function Logins(items: seq<Json>): (r: seq<string>)
    ensures forall u :: u in r <==> exists i | 0 <= i < |items| :: Get(items[i], "login") == Some(Str(u))
  {
    if items == [] then []
    else
      var rest := Logins(items[1..]);
      assert forall i | 1 <= i < |items| :: items[i] == items[1..][i - 1];
      match Get(items[0], "login")
      case Some(Str(u)) => [u] + rest
      case _ => rest
  }

  /** A listing of logins and the replies it used. */
  datatype Names = Names(result: Result<seq<string>>, used: nat)

  /** `get_followers()` and `get_following()`: the set of string logins of a
      paginated listing, held as its sorted list of distinct elements. */
  function ListLogins(svc: Service, script: seq<Reply>): (n: Names)
    ensures n.used == Paginate(svc.pageSize, script).used
    ensures n.result.Ok? <==> Paginate(svc.pageSize, script).failure.None?
    ensures n.result.Err? ==> n.result.error == Paginate(svc.pageSize, script).failure.value
    ensures n.result.Ok? ==> Sorting.StrictlySorted(n.result.value)
  {
    NamesOf(Paginate(svc.pageSize, script))
  }

  /** The logins of a finished crawl, or the exception that ended it. */
  function NamesOf(c: Crawl): (n: Names)
    ensures n.used == c.used
    ensures n.result.Ok? <==> c.failure.None?
    ensures n.result.Err? ==> n.result.error == c.failure.value
    ensures n.result.Ok? ==> Sorting.StrictlySorted(n.result.value)
  {
    if c.failure.Some? then Names(Err(c.failure.value), c.used)
    else Names(Ok(Sorting.SortUnique(Logins(c.items))), c.used)
  }

  /** A listing holds exactly the string logins of the objects collected;
      objects without one, or with a login that is not a string, add
      nothing. */
  lemma NamesOfHolds(c: Crawl, u: string)
    requires NamesOf(c).result.Ok?
    ensures u in NamesOf(c).result.value <==> exists i | 0 <= i < |c.items| :: Get(c.items[i], "login") == Some(Str(u))
  {
  }

  /** `{u.strip() for u in (names or []) if u and u.strip()}`, as its sorted
      list of distinct elements. */
  function NameSet(xs: seq<string>): (r: seq<string>)
    ensures Sorting.StrictlySorted(r)
    ensures forall u :: u in r <==> u in Text.KeepTrimmed(xs)
  {
    Sorting.SortUnique(Text.KeepTrimmed(xs))
  }

  /** The cleaned list holds exactly the stripped forms of the entries that
      are not blank. */
  lemma NameSetHolds(xs: seq<string>, u: string)
    ensures u in NameSet(xs) <==> u != [] && Text.StripsTo(xs, u)
  {
    Text.KeepTrimmedHolds(xs, u);
  }

  /** The elements of `xs` found in neither `a` nor `b`. */
  function Minus(xs: seq<string>, a: seq<string>, b: seq<string>): (r: seq<string>)
    ensures forall u :: u in r <==> u in xs && u !in a && u !in b
  {
    if xs == [] then []
    else
      var rest := Minus(xs[1..], a, b);
      assert forall u :: u in xs <==> u == xs[0] || u in xs[1..] by {
        assert xs == [xs[0]] + xs[1..];
      }
      (if xs[0] !in a && xs[0] !in b then [xs[0]] else []) + rest
  }

  /** Who to follow and who to unfollow, each sorted. */
  datatype Plan = Plan(toFollow: seq<string>, toUnfollow: seq<string>)

  /** `(followers - following) - block` and `(following - followers) - allow`. */
  function MakePlan(followers: seq<string>, following: seq<string>, allow: seq<string>, block: seq<string>): (p: Plan)
    ensures Sorting.StrictlySorted(p.toFollow) && Sorting.StrictlySorted(p.toUnfollow)
    ensures forall u :: u in p.toFollow <==> u in followers && u !in following && u !in block
    ensures forall u :: u in p.toUnfollow <==> u in following && u !in followers && u !in allow
  {
    Plan(Sorting.SortUnique(Minus(followers, following, block)),
         Sorting.SortUnique(Minus(following, followers, allow)))
  }

  /** Nobody is both followed and unfollowed, the block list is never
      followed and the allow list never unfollowed. */
  lemma PlanSeparates(followers: seq<string>, following: seq<string>, allow: seq<string>, block: seq<string>, u: string)
    ensures var p := MakePlan(followers, following, allow, block);
            !(u in p.toFollow && u in p.toUnfollow) && (u in block ==> u !in p.toFollow)
            && (u in allow ==> u !in p.toUnfollow)
  {
  }

  /** Followers {a, b, c}, following {b, c, d}, block {a} and allow {d}
      leave nothing to do. */
  lemma PlanExample()
    ensures MakePlan(["a", "b", "c"], ["b", "c", "d"], ["d"], ["a"]) == Plan([], [])
  {
  }

  /** An exception `sync_followers` catches per user: `GitHubAPIError` and
      its subclass `AuthenticationError`. */
  predicate Caught(e: Error) {
    e == AuthError || e == ApiError
  }

  /** The `skipped` reason `error:<class name>` of a caught exception. */
  function ErrorTag(e: Error): (tag: string)
    ensures tag in {"error:AuthenticationError", "error:GitHubAPIError"}
  {
    if e == AuthError then "error:AuthenticationError" else "error:GitHubAPIError"
  }

  /** The outcome of one loop of `sync_followers`: the users acted on, the
      `skipped` entries it wrote, the replies it used, and the exception that
      escaped it, if any. */
  datatype Pass = Pass(done: seq<string>, skipped: map<string, string>, used: nat, failure: Option<Error>)

  /** The follow loop (or the unfollow loop) over `names` in order. A dry run
      records `dryTag` for every name and sends nothing; otherwise each name
      is followed, a caught exception is recorded under `error:<class>`, and
      any other exception ends the run. */
  function Act(names: seq<string>, dryRun: bool, dryTag: string, script: seq<Reply>): (p: Pass)
    ensures p.used <= |script|
    ensures forall u | u in p.done :: u in names
    ensures forall u | u in p.skipped :: u in names
    ensures dryRun ==> p.done == [] && p.used == 0 && p.failure.None?
    ensures dryRun ==> forall u :: u in p.skipped <==> u in names
    ensures dryRun ==> forall u | u in p.skipped :: p.skipped[u] == dryTag
    ensures !dryRun ==> forall u | u in p.skipped :: p.skipped[u] in {"error:AuthenticationError", "error:GitHubAPIError"}
    ensures p.failure.Some? ==> !Caught(p.failure.value)
    decreases |names|
  {
    if names == [] then Pass([], map[], 0, None)
    else
      var u := names[0];
      assert forall v :: v in names <==> v == u || v in names[1..] by {
        assert names == [u] + names[1..];
      }
      if dryRun then
        var rest := Act(names[1..], dryRun, dryTag, script);
        Pass(rest.done, map[u := dryTag] + rest.skipped, rest.used, rest.failure)
      else
        var c := Toggle(u, script);
        if c.result.Err? && !Caught(c.result.error) then Pass([], map[], c.used, Some(c.result.error))
        else
          var rest := Act(names[1..], dryRun, dryTag, script[c.used..]);
          var skip: map<string, string> := if c.result.Err? then map[u := ErrorTag(c.result.error)] else map[];
          var done := if c.result.Ok? && c.result.value then [u] else [];
          Pass(done + rest.done, skip + rest.skipped, c.used + rest.used, rest.failure)
  }

  /** The first name of a strictly sorted list is below all the others. */
  lemma HeadBelowTail(names: seq<string>)
    requires Sorting.StrictlySorted(names) && names != []
    ensures Sorting.StrictlySorted(names[1..])
    ensures forall v | v in names[1..] :: Sorting.Less(names[0], v)
    ensures names[0] !in names[1..]
  {
    Sorting.LessIrreflexive(names[0]);
    assert forall j | 1 <= j < |names| :: names[1..][j - 1] == names[j];
  }

  /** One step of a loop that is not a dry run and whose first call does
      not escape. */
  lemma ActStep(names: seq<string>, dryTag: string, script: seq<Reply>)
    requires names != []
    requires !(Toggle(names[0], script).result.Err? && !Caught(Toggle(names[0], script).result.error))
    ensures var c := Toggle(names[0], script);
            var rest := Act(names[1..], false, dryTag, script[c.used..]);
            var p := Act(names, false, dryTag, script);
            p.failure == rest.failure
            && (c.result.Ok? ==> p.done == [names[0]] + rest.done && p.skipped == rest.skipped)
            && (c.result.Err? ==> p.done == rest.done && p.skipped == map[names[0] := ErrorTag(c.result.error)] + rest.skipped)
  {
    ActUnfold(names, dryTag, script);
    var c := Toggle(names[0], script);
    if c.result.Ok? {
      assert c.result.value;
    }
  }

  /** One step of the loop, as a single equation. */
  lemma ActUnfold(names: seq<string>, dryTag: string, script: seq<Reply>)
    requires names != []
    requires !(Toggle(names[0], script).result.Err? && !Caught(Toggle(names[0], script).result.error))
    ensures var c := Toggle(names[0], script);
            var rest := Act(names[1..], false, dryTag, script[c.used..]);
            var skip: map<string, string> := if c.result.Err? then map[names[0] := ErrorTag(c.result.error)] else map[];
            var done := if c.result.Ok? && c.result.value then [names[0]] else [];
            Act(names, false, dryTag, script) == Pass(done + rest.done, skip + rest.skipped, c.used + rest.used, rest.failure)
  {
  }

  /** The users acted on come in the order of `names`, so the report lists
      `sorted(followed)` and `sorted(unfollowed)` equal them. */
  lemma {:induction false} ActKeepsOrder(names: seq<string>, dryRun: bool, dryTag: string, script: seq<Reply>)
    requires Sorting.StrictlySorted(names)
    ensures Sorting.StrictlySorted(Act(names, dryRun, dryTag, script).done)
    decreases |names|
  {
    if names != [] && !dryRun {
      var c := Toggle(names[0], script);
      if !(c.result.Err? && !Caught(c.result.error)) {
        HeadBelowTail(names);
        ActKeepsOrder(names[1..], dryRun, dryTag, script[c.used..]);
        ActStep(names, dryTag, script);
        var rest := Act(names[1..], dryRun, dryTag, script[c.used..]);
        if c.result.Ok? {
          Sorting.ConsSorted(names[0], rest.done);
        }
      }
    } else if names != [] {
      HeadBelowTail(names);
      ActKeepsOrder(names[1..], dryRun, dryTag, script);
    }
  }

  /** Every name of `names` is either acted on or skipped, not both. */
  predicate AccountedOnce(names: seq<string>, p: Pass) {
    forall u | u in names :: (u in p.done) != (u in p.skipped)
  }

  /** A step whose first call does not escape keeps `AccountedOnce` from
      the rest of the loop to the whole of it. */
  lemma ActAccountsStep(names: seq<string>, dryTag: string, script: seq<Reply>)
    requires Sorting.StrictlySorted(names) && names != []
    requires !(Toggle(names[0], script).result.Err? && !Caught(Toggle(names[0], script).result.error))
    requires var c := Toggle(names[0], script);
             AccountedOnce(names[1..], Act(names[1..], false, dryTag, script[c.used..]))
    ensures AccountedOnce(names, Act(names, false, dryTag, script))
  {
    var c := Toggle(names[0], script);
    var p := Act(names, false, dryTag, script);
    var rest := Act(names[1..], false, dryTag, script[c.used..]);
    HeadBelowTail(names);
    ActStep(names, dryTag, script);
    assert names[0] !in rest.done && names[0] !in rest.skipped;
    if c.result.Ok? {
      assert (names[0] in p.done) != (names[0] in p.skipped);
    } else {
      assert (names[0] in p.done) != (names[0] in p.skipped);
    }
    forall u | u in names
      ensures (u in p.done) != (u in p.skipped)
    {
      if u != names[0] {
        assert u in names[1..] by {
          assert names == [names[0]] + names[1..];
        }
        assert (u in p.done) == (u in rest.done);
        assert (u in p.skipped) == (u in rest.skipped);
      }
    }
  }

  /** Outside a dry run, a loop that finishes accounts for every name exactly
      once: either acted on or recorded as skipped with its error. */
  lemma {:induction false} ActAccountsForAll(names: seq<string>, dryTag: string, script: seq<Reply>)
    requires Sorting.StrictlySorted(names)
    requires Act(names, false, dryTag, script).failure.None?
    ensures var p := Act(names, false, dryTag, script);
            forall u | u in names :: (u in p.done) != (u in p.skipped)
    decreases |names|
  {
    if names != [] {
      var c := Toggle(names[0], script);
      assert !(c.result.Err? && !Caught(c.result.error));
      HeadBelowTail(names);
      ActStep(names, dryTag, script);
      ActAccountsForAll(names[1..], dryTag, script[c.used..]);
      ActAccountsStep(names, dryTag, script);
      assert AccountedOnce(names, Act(names, false, dryTag, script));
    }
  }

  /** Nobody is planned both for following and for unfollowing. */
  predicate Separate(plan: Plan) {
    forall u | u in plan.toFollow :: u !in plan.toUnfollow
  }

  /** What the two loops of `sync_followers` report. */
  datatype Actions = Actions(followed: seq<string>, unfollowed: seq<string>, skipped: map<string, string>)

  /** The two loops and the replies they used. */
  datatype Applied = Applied(result: Result<Actions>, used: nat)

  /** The follow loop over `to_follow`, then the unfollow loop over
      `to_unfollow`, sharing one `skipped` map. */
  function Apply(plan: Plan, dryRun: bool, script: seq<Reply>): (a: Applied)
    ensures a.used <= |script|
    ensures a.result.Err? ==> !Caught(a.result.error)
  {
    var f := Act(plan.toFollow, dryRun, "dry_run_follow", script);
    if f.failure.Some? then Applied(Err(f.failure.value), f.used)
    else
      var g := Act(plan.toUnfollow, dryRun, "dry_run_unfollow", script[f.used..]);
      if g.failure.Some? then Applied(Err(g.failure.value), f.used + g.used)
      else Applied(Ok(Actions(f.done, g.done, f.skipped + g.skipped)), f.used + g.used)
  }

  /** A dry run sends nothing, acts on nobody, and records every candidate
      under its dry-run reason. */
  lemma ApplyDryRun(plan: Plan, script: seq<Reply>)
    requires Separate(plan)
    ensures var a := Apply(plan, true, script);
            a.used == 0 && a.result.Ok?
            && a.result.value.followed == [] && a.result.value.unfollowed == []
            && (forall u :: u in a.result.value.skipped <==> u in plan.toFollow || u in plan.toUnfollow)
            && (forall u | u in plan.toFollow :: a.result.value.skipped[u] == "dry_run_follow")
            && (forall u | u in plan.toUnfollow :: a.result.value.skipped[u] == "dry_run_unfollow")
  {
  }

  /** Outside a dry run the users acted on are planned ones in sorted order,
      and every planned user is either acted on or skipped with the class of
      the error that stopped it. */
  lemma ApplyBestEffort(plan: Plan, script: seq<Reply>)
    requires Separate(plan)
    requires Sorting.StrictlySorted(plan.toFollow) && Sorting.StrictlySorted(plan.toUnfollow)
    requires Apply(plan, false, script).result.Ok?
    ensures var r := Apply(plan, false, script).result.value;
            (forall u | u in r.followed :: u in plan.toFollow)
            && (forall u | u in r.unfollowed :: u in plan.toUnfollow)
            && Sorting.StrictlySorted(r.followed) && Sorting.StrictlySorted(r.unfollowed)
            && (forall u | u in plan.toFollow :: (u in r.followed) != (u in r.skipped))
            && (forall u | u in plan.toUnfollow :: (u in r.unfollowed) != (u in r.skipped))
            && (forall u | u in r.skipped :: r.skipped[u] in {"error:AuthenticationError", "error:GitHubAPIError"})
  {
    var f := Act(plan.toFollow, false, "dry_run_follow", script);
    var g := Act(plan.toUnfollow, false, "dry_run_unfollow", script[f.used..]);
    ActKeepsOrder(plan.toFollow, false, "dry_run_follow", script);
    ActKeepsOrder(plan.toUnfollow, false, "dry_run_unfollow", script[f.used..]);
    ActAccountsForAll(plan.toFollow, "dry_run_follow", script);
    ActAccountsForAll(plan.toUnfollow, "dry_run_unfollow", script[f.used..]);
  }

  /** The structured report of one synchronisation, timestamps left out. */
  datatype Report = Report(
    dryRun: bool,
    followersCount: nat,
    followingCount: nat,
    toFollow: seq<string>,
    toUnfollow: seq<string>,
    followed: seq<string>,
    unfollowed: seq<string>,
    skipped: map<string, string>,
    allowlist: seq<string>,
    blocklist: seq<string>)

  /** A synchronisation: the report or the exception that escaped it, and
      the replies used. */
  datatype SyncRun = SyncRun(result: Result<Report>, used: nat)

  /** The followers listing, then the following listing on the replies left. */
  datatype Listings = Listings(followers: Names, following: Names)

  function ListBoth(svc: Service, script: seq<Reply>): (l: Listings)
    ensures l.followers.used + l.following.used <= |script|
  {
    var a := ListLogins(svc, script);
    Listings(a, ListLogins(svc, script[a.used..]))
  }

  /** What `sync_followers` does once both listings are in: plan, run both
      loops on the replies left, and build the report. */
  function Finish(l: Listings, allow: seq<string>, block: seq<string>, dryRun: bool, script: seq<Reply>): (s: SyncRun)
    requires l.followers.result.Ok? && l.following.result.Ok?
    requires l.followers.used + l.following.used <= |script|
    ensures s.used <= |script|
  {
    var plan := MakePlan(l.followers.result.value, l.following.result.value, allow, block);
    var n := l.followers.used + l.following.used;
    var ap := Apply(plan, dryRun, script[n..]);
    if ap.result.Err? then SyncRun(Err(ap.result.error), n + ap.used)
    else
      var act := ap.result.value;
      SyncRun(Ok(Report(dryRun, |l.followers.result.value|, |l.following.result.value|, plan.toFollow, plan.toUnfollow,
                        act.followed, act.unfollowed, act.skipped, allow, block)),
              n + ap.used)
  }

  /** `sync_followers(dry_run, allowlist, blocklist)`. A failed listing, or
      an exception other than `GitHubAPIError` during the loops, escapes. */
  function Sync(svc: Service, dryRun: bool, allowlist: seq<string>, blocklist: seq<string>, script: seq<Reply>): (s: SyncRun)
    ensures s.used <= |script|
    ensures s.result.Ok? ==> s.result.value.dryRun == dryRun
    ensures s.result.Ok? ==> s.result.value.allowlist == NameSet(allowlist) && s.result.value.blocklist == NameSet(blocklist)
  {
    var l := ListBoth(svc, script);
    if l.followers.result.Err? then SyncRun(Err(l.followers.result.error), l.followers.used)
    else if l.following.result.Err? then SyncRun(Err(l.following.result.error), l.followers.used + l.following.used)
    else Finish(l, NameSet(allowlist), NameSet(blocklist), dryRun, script)
  }

  /** A run that succeeds listed both sets and finished on them. */
  lemma SyncFinishes(svc: Service, dryRun: bool, allowlist: seq<string>, blocklist: seq<string>, script: seq<Reply>)
    requires Sync(svc, dryRun, allowlist, blocklist, script).result.Ok?
    ensures var l := ListBoth(svc, script);
            l.followers.result.Ok? && l.following.result.Ok?
            && Sync(svc, dryRun, allowlist, blocklist, script) == Finish(l, NameSet(allowlist), NameSet(blocklist), dryRun, script)
  {
  }

  /** Finishing plans exactly the set algebra over the listings and reports
      the loops over that plan, run on the replies left after the listings. */
  lemma FinishPlans(l: Listings, allow: seq<string>, block: seq<string>, dryRun: bool, script: seq<Reply>)
    requires l.followers.result.Ok? && l.following.result.Ok?
    requires l.followers.used + l.following.used <= |script|
    requires Finish(l, allow, block, dryRun, script).result.Ok?
    ensures var s := Finish(l, allow, block, dryRun, script);
            var p := MakePlan(l.followers.result.value, l.following.result.value, allow, block);
            var n := l.followers.used + l.following.used;
            var ap := Apply(p, dryRun, script[n..]);
            s.result.value.toFollow == p.toFollow && s.result.value.toUnfollow == p.toUnfollow
            && s.result.value.followersCount == |l.followers.result.value|
            && s.result.value.followingCount == |l.following.result.value|
            && ap.result == Ok(Actions(s.result.value.followed, s.result.value.unfollowed, s.result.value.skipped))
            && s.used == n + ap.used
  {
  }

  /** A successful run plans to follow exactly the listed followers it does
      not follow yet and who are not on the cleaned block list, and to
      unfollow exactly the users it follows who do not follow back and are
      not on the cleaned allow list, each plan sorted; the counts are the
      sizes of the two listed login sets. */
  lemma SyncPlans(svc: Service, dryRun: bool, allowlist: seq<string>, blocklist: seq<string>, script: seq<Reply>, u: string)
    requires Sync(svc, dryRun, allowlist, blocklist, script).result.Ok?
    ensures var fo := ListLogins(svc, script);
            var fg := ListLogins(svc, script[fo.used..]);
            var r := Sync(svc, dryRun, allowlist, blocklist, script).result.value;
            fo.result.Ok? && fg.result.Ok?
            && (u in r.toFollow <==> u in fo.result.value && u !in fg.result.value && u !in NameSet(blocklist))
            && (u in r.toUnfollow <==> u in fg.result.value && u !in fo.result.value && u !in NameSet(allowlist))
            && Sorting.StrictlySorted(r.toFollow) && Sorting.StrictlySorted(r.toUnfollow)
            && r.followersCount == |fo.result.value| && r.followingCount == |fg.result.value|
  {
    SyncFinishes(svc, dryRun, allowlist, blocklist, script);
    var l := ListBoth(svc, script);
    FinishPlans(l, NameSet(allowlist), NameSet(blocklist), dryRun, script);
  }

  /** A dry run sends nothing after the two listings, acts on nobody, and
      records every candidate under its dry-run reason. */
  lemma SyncDryRun(svc: Service, allowlist: seq<string>, blocklist: seq<string>, script: seq<Reply>)
    requires Sync(svc, true, allowlist, blocklist, script).result.Ok?
    ensures var s := Sync(svc, true, allowlist, blocklist, script);
            s.used == ListBoth(svc, script).followers.used + ListBoth(svc, script).following.used
            && s.result.value.followed == [] && s.result.value.unfollowed == []
            && (forall u :: u in s.result.value.skipped <==> u in s.result.value.toFollow || u in s.result.value.toUnfollow)
            && (forall u | u in s.result.value.toFollow :: s.result.value.skipped[u] == "dry_run_follow")
            && (forall u | u in s.result.value.toUnfollow :: s.result.value.skipped[u] == "dry_run_unfollow")
  {
    SyncFinishes(svc, true, allowlist, blocklist, script);
    var l := ListBoth(svc, script);
    FinishPlans(l, NameSet(allowlist), NameSet(blocklist), true, script);
    var p := MakePlan(l.followers.result.value, l.following.result.value, NameSet(allowlist), NameSet(blocklist));
    ApplyDryRun(p, script[l.followers.used + l.following.used..]);
  }

  /** Outside a dry run, the users acted on are planned ones, in sorted
      order, and every planned user is either acted on or skipped with the
      class of the error that stopped it. */
  lemma SyncBestEffort(svc: Service, allowlist: seq<string>, blocklist: seq<string>, script: seq<Reply>)
    requires Sync(svc, false, allowlist, blocklist, script).result.Ok?
    ensures var r := Sync(svc, false, allowlist, blocklist, script).result.value;
            (forall u | u in r.followed :: u in r.toFollow)
            && (forall u | u in r.unfollowed :: u in r.toUnfollow)
            && Sorting.StrictlySorted(r.followed) && Sorting.StrictlySorted(r.unfollowed)
            && (forall u | u in r.toFollow :: (u in r.followed) != (u in r.skipped))
            && (forall u | u in r.toUnfollow :: (u in r.unfollowed) != (u in r.skipped))
            && (forall u | u in r.skipped :: r.skipped[u] in {"error:AuthenticationError", "error:GitHubAPIError"})
  {
    SyncFinishes(svc, false, allowlist, blocklist, script);
    var l := ListBoth(svc, script);
    FinishPlans(l, NameSet(allowlist), NameSet(blocklist), false, script);
    var p := MakePlan(l.followers.result.value, l.following.result.value, NameSet(allowlist), NameSet(blocklist));
    ApplyBestEffort(p, script[l.followers.used + l.following.used..]);
  }
}
