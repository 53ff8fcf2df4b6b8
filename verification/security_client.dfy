/** The code-scanning client of `src/providers/github/security.py`
    (`GitHubSecurityClient`): its argument checks, the one-shot rate-limit
    retry around every API request, the analysis and alert listings, the
    deletion state machine of `delete_analysis`, and `dismiss_alert`.

    Every request goes through one session, so the server is a single script
    of replies consumed in the order the client sends requests. A `Broken`
    reply is a `requests` exception, which this client never catches.
 */
module SecurityClient {
  import opened Outcome
  import opened Json
  import opened Http
  import Text
  import HttpClient
  import Api

  /** A constructed client. */
  datatype Client = Client(token: string, repo: string, dryRun: bool)

  /** `GitHubSecurityClient.__init__`: an empty token, or a repository name
      without a slash, is a `ValueError`. */
  function NewClient(token: string, repo: string, dryRun: bool): (r: Result<Client>)
    ensures r.Ok? <==> token != [] && '/' in repo
    ensures r.Err? ==> r.error == ValueError
    ensures r.Ok? ==> r.value.token == token && r.value.repo == repo && r.value.dryRun == dryRun
  {
    if token == [] || '/' !in repo then Err(ValueError) else Ok(Client(token, repo, dryRun))
  }

  /** Seconds slept after a rate-limited 403 that carries no usable reset time. */
  const FallbackWait: int := 30

  /** The fallback test: a 403 whose text mentions "rate limit" in any ASCII case. */
  predicate RateLimitedForbidden(resp: Response) {
    resp.status == 403 && Text.Contains(Text.Lower(resp.text), "rate limit")
  }

  /** `_rate_limit_retry_if_needed`'s wait for a response received at wall
      clock `now`: the header rule (both headers parse and nothing remains)
      first; failing that, a rate-limited 403 waits until one second past the
      reset header, or 30 seconds when that header is missing or not an
      integer. */
  function RetryWait(resp: Response, now: int): (w: Option<int>)
    ensures w.Some? <==> HttpClient.RateLimitWait(resp.headers, now).Some? || RateLimitedForbidden(resp)
    ensures w.Some? ==> w.value >= 1
    ensures HttpClient.RateLimitWait(resp.headers, now).Some? ==>
              w == Some(HttpClient.RateLimitWait(resp.headers, now).value as int)
    ensures (HttpClient.RateLimitWait(resp.headers, now).None? && RateLimitedForbidden(resp)
             && Text.ParseInt(HeaderOrEmpty(resp, RateResetHeader)).None?) ==> w == Some(FallbackWait)
    ensures (HttpClient.RateLimitWait(resp.headers, now).None? && RateLimitedForbidden(resp)
             && Text.ParseInt(HeaderOrEmpty(resp, RateResetHeader)).Some?) ==>
              var reset := Text.ParseInt(HeaderOrEmpty(resp, RateResetHeader)).value;
              (reset <= now ==> w == Some(1)) && (reset > now ==> w == Some(reset + 1 - now))
  {
    match HttpClient.RateLimitWait(resp.headers, now)
    case Some(n) => Some(n)
    case None =>
      if !RateLimitedForbidden(resp) then None
      else
        var reset := HeaderOrEmpty(resp, RateResetHeader);
        if reset == [] then Some(FallbackWait)
        else
          match Text.ParseInt(reset)
          case Some(r) => Some((if r - now > 0 then r - now else 0) + 1)
          case None => Some(FallbackWait)
  }

  /** What one `_request` call leaves: the response the caller sees, or the
      exception, and the number of replies it consumed. */
  datatype Call = Call(result: Result<Response>, used: nat)

  /** `_request`: one request; when the response calls for a wait, the client
      sleeps and sends exactly one more request, whose outcome is returned
      whatever it is. */
  function Send(script: seq<Reply>): (c: Call)
    ensures c.used <= |script| && c.used <= 2
    ensures c.used == 0 <==> script == []
    ensures c.used == 0 ==> c.result == Err(NoReply)
    ensures c.used == 2 ==> script[0].Answer? && RetryWait(script[0].resp, script[0].at).Some?
    ensures c.used == 2 && c.result.Ok? ==> script[1].Answer? && script[1].resp == c.result.value
  {
    if script == [] then Call(Err(NoReply), 0)
    else
      match script[0]
      case Broken => Call(Err(TransportError), 1)
      case Answer(resp, at) =>
        if RetryWait(resp, at).None? then Call(Ok(resp), 1)
        else if |script| < 2 then Call(Err(NoReply), 1)
        else
          match script[1]
          case Broken => Call(Err(TransportError), 2)
          case Answer(retry, _) => Call(Ok(retry), 2)
  }

  /** With no wait called for, the first response is returned unchanged after
      one request. */
  lemma SendWithoutWait(script: seq<Reply>)
    requires script != [] && script[0].Answer?
    requires RetryWait(script[0].resp, script[0].at).None?
    ensures Send(script) == Call(Ok(script[0].resp), 1)
  {
  }

  /** A wait costs exactly one extra request, even when the retry is itself
      rate-limited. */
  lemma SendRetriesOnce(script: seq<Reply>)
    requires |script| >= 2 && script[0].Answer? && script[1].Answer?
    requires RetryWait(script[0].resp, script[0].at).Some?
    ensures Send(script) == Call(Ok(script[1].resp), 2)
  {
  }

  /** What one listing page gives: its objects, the end of the listing, or the
      exception that stops it. */
  datatype Page = Items(items: seq<Json>) | End | Fail(error: Error)

  /** A page together with the number of replies its request consumed. */
  datatype Fetch = Fetch(page: Page, used: nat)

  /** One page of `list_code_scanning_analyses` or `list_code_scanning_alerts`:
      a status other than 200 raises `RuntimeError`; a falsy body (`null`,
      `[]`, `{}`, `""`, `0`, `false`) ends the listing; any other non-array
      raises `RuntimeError`; an array yields its objects. */
  function FetchPage(script: seq<Reply>): (f: Fetch)
    ensures f.used == Send(script).used
    ensures f.page.Items? ==> forall i | 0 <= i < |f.page.items| :: f.page.items[i].Obj?
  {
    var c := Send(script);
    var page :=
      match c.result
      case Err(e) => Fail(e)
      case Ok(resp) =>
        if resp.status != 200 then Fail(RuntimeError)
        else
          match resp.body
          case None => Fail(BadJson)
          case Some(j) =>
            if !Truthy(j) then End
            else if !j.Arr? then Fail(RuntimeError)
            else Items(Api.OnlyDicts(j.items));
    Fetch(page, c.used)
  }

  /** How far a listing got: the objects yielded, the pages requested
      (numbered 1, 2, … with 100 records each), and the exception that ended
      it, if any. */
  datatype Listing = Listing(items: seq<Json>, pages: nat, failure: Option<Error>)

  /** A whole listing. There is no short-page stop: only a falsy body ends it. */
  function ListAll(script: seq<Reply>): (l: Listing)
    ensures l.pages >= 1
    ensures forall i | 0 <= i < |l.items| :: l.items[i].Obj?
    decreases |script|
  {
    var f := FetchPage(script);
    match f.page
    case End => Listing([], 1, None)
    case Fail(e) => Listing([], 1, Some(e))
    case Items(xs) =>
      var rest := ListAll(script[f.used..]);
      Listing(xs + rest.items, rest.pages + 1, rest.failure)
  }

  /** A page of items is followed by the rest of the listing. */
  lemma ListAllStep(script: seq<Reply>)
    requires FetchPage(script).page.Items?
    ensures var f := FetchPage(script);
            var rest := ListAll(script[f.used..]);
            ListAll(script) == Listing(f.page.items + rest.items, rest.pages + 1, rest.failure)
  {
  }

  /** A 200 reply carrying `body`, with no rate-limit headers. */
  function Plain(status: int, body: Json): Reply {
    Answer(Response(status, map[], "", Some(body)), 0)
  }

  /** A plain reply calls for no wait unless it is a 403. */
  lemma PlainSend(status: int, body: Json, more: seq<Reply>)
    requires status != 403
    ensures Send([Plain(status, body)] + more) == Call(Ok(Response(status, map[], "", Some(body))), 1)
  {
  }

  /** A plain 200 page of objects: the end of the listing when empty, its
      objects otherwise. */
  lemma PlainPage(xs: seq<Json>, more: seq<Reply>)
    requires forall i | 0 <= i < |xs| :: xs[i].Obj?
    ensures FetchPage([Plain(200, Arr(xs))] + more) == Fetch(if xs == [] then End else Items(xs), 1)
  {
    PlainSend(200, Arr(xs), more);
    Api.OnlyDictsKeepsObjects(xs);
  }

  /** The items of every page, in order. */
  function Concat(pages: seq<seq<Json>>): seq<Json> {
    if pages == [] then [] else pages[0] + Concat(pages[1..])
  }

  /** One plain 200 reply per page. */
  function PageReplies(pages: seq<seq<Json>>): (s: seq<Reply>)
    ensures |s| == |pages|
  {
    if pages == [] then [] else [Plain(200, Arr(pages[0]))] + PageReplies(pages[1..])
  }

  /** Non-empty pages of objects, however short, are all read and concatenated,
      until the empty array that ends the listing. */
  lemma {:induction false} ListAllReadsEveryPage(pages: seq<seq<Json>>)
    requires forall i | 0 <= i < |pages| :: pages[i] != []
    requires forall i, j | 0 <= i < |pages| && 0 <= j < |pages[i]| :: pages[i][j].Obj?
    ensures ListAll(PageReplies(pages) + [Plain(200, Arr([]))]) == Listing(Concat(pages), |pages| + 1, None)
    decreases |pages|
  {
    var s := PageReplies(pages) + [Plain(200, Arr([]))];
    assert s[0].Answer? && RetryWait(s[0].resp, s[0].at).None?;
    if pages != [] {
      Api.OnlyDictsKeepsObjects(pages[0]);
      assert FetchPage(s) == Fetch(Items(pages[0]), 1);
      assert s[1..] == PageReplies(pages[1..]) + [Plain(200, Arr([]))];
      ListAllReadsEveryPage(pages[1..]);
    }
  }

  /** The query parameter that confirms a deletion, and its value. */
  const ConfirmParam: string := "confirm_delete="
  const ConfirmTrue: string := ConfirmParam + "true"

  /** The API path of the analyses listing of `repo`. */
  function AnalysesPath(repo: string): string {
    "/repos/" + repo + "/code-scanning/analyses"
  }

  /** The API path of the alerts listing of `repo`. */
  function AlertsPath(repo: string): string {
    "/repos/" + repo + "/code-scanning/alerts"
  }

  /** The URL of the first DELETE of analysis `id`. */
  function AnalysisUrl(repo: string, id: int): string {
    GithubApi + AnalysesPath(repo) + "/" + Text.DecimalString(id)
  }

  /** `base?confirm_delete=true`, the retry after a 400 asking for confirmation. */
  function ConfirmedUrl(base: string): (u: string)
    ensures Text.Contains(u, ConfirmParam)
  {
    var u := base + "?" + ConfirmTrue;
    assert u[|base| + 1..][..|ConfirmParam|] == ConfirmParam;
    u
  }

  /** A follow-up URL with `confirm_delete=true` appended, after `&` when the
      URL already has a query and `?` otherwise, unless it already carries
      `confirm_delete=`. */
  function WithConfirmFlag(url: string): (r: string)
    ensures Text.Contains(r, ConfirmParam)
    ensures url <= r
    ensures Text.Contains(url, ConfirmParam) ==> r == url
    ensures !Text.Contains(url, ConfirmParam) ==>
              |r| == |url| + 1 + |ConfirmTrue| && r[|url| + 1..] == ConfirmTrue
              && (r[|url|] == '&' <==> '?' in url) && (r[|url|] == '?' <==> '?' !in url)
  {
    if Text.Contains(url, ConfirmParam) then url
    else
      var r := url + [if '?' in url then '&' else '?'] + ConfirmTrue;
      assert r[|url| + 1..][..|ConfirmParam|] == ConfirmParam;
      r
  }

  /** A flagged URL is left alone by a second pass. */
  lemma WithConfirmFlagIdempotent(url: string)
    ensures WithConfirmFlag(WithConfirmFlag(url)) == WithConfirmFlag(url)
  {
  }

  /** The outcome of `delete_analysis`: success or the exception raised, and
      the URL of every request sent, in order (a rate-limit retry repeats its
      URL), so `|sent|` replies were consumed. */
  datatype Deletion = Deletion(result: Result<()>, sent: seq<string>)

  /** `n` requests to `url`. */
  function Repeat(url: string, n: nat): (s: seq<string>)
    ensures |s| == n && forall i | 0 <= i < n :: s[i] == url
  {
    seq(n, _ => url)
  }

  /** Python `confirm_url or next_url` on a follow-up payload (read as `{}`
      when it is not an object): the confirmation URL wins; `None` when both
      are falsy. */
  function FollowTarget(payload: Json): (t: Option<Json>)
    ensures t.Some? ==> Truthy(t.value)
    ensures t.None? <==> !Truthy(Get(payload, "confirm_delete_url").GetOr(Null))
                         && !Truthy(Get(payload, "next_analysis_url").GetOr(Null))
    ensures Truthy(Get(payload, "confirm_delete_url").GetOr(Null)) ==> t == Get(payload, "confirm_delete_url")
  {
    var confirm := Get(payload, "confirm_delete_url").GetOr(Null);
    var next := Get(payload, "next_analysis_url").GetOr(Null);
    if Truthy(confirm) then Some(confirm) else if Truthy(next) then Some(next) else None
  }

  /** The follow-up loop after a 200/202: read the payload, stop when it names
      no URL, otherwise DELETE the flagged target without the rate-limit retry
      and go on while the answer is 200/202; a 204 ends it, any other status
      raises `RuntimeError`. A truthy number or boolean in place of the URL
      fails the `in` test with `TypeError`. A truthy list or object passes it
      (`in` tests membership), its `str()` gets the flag appended, and
      `requests` refuses that text as a URL before sending anything. */
  function FollowUps(resp: Response, rest: seq<Reply>, sent: seq<string>): (d: Deletion)
    ensures sent <= d.sent && |d.sent| <= |sent| + |rest|
    ensures forall i | |sent| <= i < |d.sent| :: Text.Contains(d.sent[i], ConfirmParam)
    ensures resp.body.Some? && FollowTarget(resp.body.value).Some? ==>
              var t := FollowTarget(resp.body.value).value;
              (t.Int? || t.Bool? ==> d == Deletion(Err(TypeError), sent))
              && (t.Arr? || t.Obj? ==> d == Deletion(Err(TransportError), sent))
    decreases |rest|
  {
    match resp.body
    case None => Deletion(Err(BadJson), sent)
    case Some(payload) =>
      match FollowTarget(payload)
      case None => Deletion(Ok(()), sent)
      case Some(target) =>
        if target.Int? || target.Bool? then Deletion(Err(TypeError), sent)
        else if !target.Str? then Deletion(Err(TransportError), sent)
        else if rest == [] then Deletion(Err(NoReply), sent)
        else
          var url := WithConfirmFlag(target.s);
          match rest[0]
          case Broken => Deletion(Err(TransportError), sent + [url])
          case Answer(follow, _) =>
            if follow.status == 204 then Deletion(Ok(()), sent + [url])
            else if follow.status in {200, 202} then FollowUps(follow, rest[1..], sent + [url])
            else Deletion(Err(RuntimeError), sent + [url])
  }

  /** After the first answer (or the confirmed retry): 200/202 enters the
      follow-up loop, anything else raises `RuntimeError`. */
  function Settle(resp: Response, rest: seq<Reply>, sent: seq<string>): (d: Deletion)
    ensures sent <= d.sent && |d.sent| <= |sent| + |rest|
    ensures forall i | |sent| <= i < |d.sent| :: Text.Contains(d.sent[i], ConfirmParam)
    ensures resp.status !in {200, 202} ==> d == Deletion(Err(RuntimeError), sent)
  {
    if resp.status in {200, 202} then FollowUps(resp, rest, sent) else Deletion(Err(RuntimeError), sent)
  }

  /** `delete_analysis(id)`. A dry run sends nothing. Otherwise: DELETE the
      analysis; 204 is done; a 400 whose text mentions `confirm_delete` is
      retried once with `?confirm_delete=true` (204 done, otherwise handled
      like a first answer); then `Settle`. Every request goes either to the
      analysis URL or to a URL carrying the confirmation flag. */
  function DeleteAnalysis(client: Client, id: int, script: seq<Reply>): (d: Deletion)
    ensures |d.sent| <= |script|
    ensures client.dryRun ==> d == Deletion(Ok(()), [])
    ensures !client.dryRun && script != [] ==> d.sent != [] && d.sent[0] == AnalysisUrl(client.repo, id)
    ensures forall i | 0 <= i < |d.sent| ::
              d.sent[i] == AnalysisUrl(client.repo, id) || Text.Contains(d.sent[i], ConfirmParam)
  {
    if client.dryRun then Deletion(Ok(()), [])
    else
      var base := AnalysisUrl(client.repo, id);
      var c := Send(script);
      var sent := Repeat(base, c.used);
      match c.result
      case Err(e) => Deletion(Err(e), sent)
      case Ok(resp) =>
        if resp.status == 204 then Deletion(Ok(()), sent)
        else if resp.status == 400 && Text.Contains(Text.Lower(resp.text), "confirm_delete") then
          var c2 := Send(script[c.used..]);
          var sent2 := sent + Repeat(ConfirmedUrl(base), c2.used);
          match c2.result
          case Err(e) => Deletion(Err(e), sent2)
          case Ok(resp2) =>
            if resp2.status == 204 then Deletion(Ok(()), sent2)
            else Settle(resp2, script[c.used + c2.used..], sent2)
        else Settle(resp, script[c.used..], sent)
  }

  /** A first answer of 204 is done after one DELETE. */
  lemma DeleteDoneOn204(client: Client, id: int, resp: Response, at: int, more: seq<Reply>)
    requires !client.dryRun && resp.status == 204 && RetryWait(resp, at).None?
    ensures DeleteAnalysis(client, id, [Answer(resp, at)] + more) == Deletion(Ok(()), [AnalysisUrl(client.repo, id)])
  {
    assert Send([Answer(resp, at)] + more) == Call(Ok(resp), 1);
  }

  /** A 400 asking for confirmation is retried once on `base?confirm_delete=true`;
      a 204 there is done after two DELETEs. */
  lemma DeleteConfirmsOn400(client: Client, id: int, resp: Response, ok: Response, more: seq<Reply>)
    requires !client.dryRun && resp.status == 400 && Text.Contains(Text.Lower(resp.text), "confirm_delete")
    requires ok.status == 204
    requires RetryWait(resp, 0).None? && RetryWait(ok, 0).None?
    ensures DeleteAnalysis(client, id, [Answer(resp, 0), Answer(ok, 0)] + more)
            == Deletion(Ok(()), [AnalysisUrl(client.repo, id), ConfirmedUrl(AnalysisUrl(client.repo, id))])
  {
    var s := [Answer(resp, 0), Answer(ok, 0)] + more;
    assert Send(s) == Call(Ok(resp), 1);
    assert s[1..] == [Answer(ok, 0)] + more;
    assert Send(s[1..]) == Call(Ok(ok), 1);
  }

  /** A 200/202 whose payload names no follow-up URL is done after one DELETE. */
  lemma DeleteDoneWithoutFollowUp(client: Client, id: int, resp: Response, more: seq<Reply>)
    requires !client.dryRun && resp.status in {200, 202} && RetryWait(resp, 0).None?
    requires resp.body.Some? && FollowTarget(resp.body.value).None?
    ensures DeleteAnalysis(client, id, [Answer(resp, 0)] + more) == Deletion(Ok(()), [AnalysisUrl(client.repo, id)])
  {
    var s := [Answer(resp, 0)] + more;
    assert Send(s) == Call(Ok(resp), 1);
  }

  /** Any other first status, and a 400 that does not ask for confirmation,
      raises `RuntimeError` after one DELETE. */
  lemma DeleteRaisesOnOtherStatus(client: Client, id: int, resp: Response, more: seq<Reply>)
    requires !client.dryRun && resp.status !in {200, 202, 204} && RetryWait(resp, 0).None?
    requires resp.status == 400 ==> !Text.Contains(Text.Lower(resp.text), "confirm_delete")
    ensures DeleteAnalysis(client, id, [Answer(resp, 0)] + more) == Deletion(Err(RuntimeError), [AnalysisUrl(client.repo, id)])
  {
    var s := [Answer(resp, 0)] + more;
    assert Send(s) == Call(Ok(resp), 1);
  }

  /** The chain 200 (confirm URL `a`) → 200 (next URL `b`) → 204 makes three
      DELETEs: the analysis, then `a` and `b`, each with the confirmation flag. */
  lemma DeleteFollowsChain(client: Client, id: int, a: string, b: string, more: seq<Reply>)
    requires !client.dryRun && a != [] && b != []
    ensures DeleteAnalysis(client, id,
              [Plain(200, Obj([("confirm_delete_url", Str(a))])),
               Plain(200, Obj([("next_analysis_url", Str(b))])),
               Plain(204, Null)] + more)
            == Deletion(Ok(()), [AnalysisUrl(client.repo, id), WithConfirmFlag(a), WithConfirmFlag(b)])
  {
    var first := Plain(200, Obj([("confirm_delete_url", Str(a))]));
    var second := Plain(200, Obj([("next_analysis_url", Str(b))]));
    var s := [first, second, Plain(204, Null)] + more;
    var base := AnalysisUrl(client.repo, id);
    assert Send(s) == Call(Ok(first.resp), 1);
    assert FollowTarget(first.resp.body.value) == Some(Str(a));
    assert FollowTarget(second.resp.body.value) == Some(Str(b));
    assert s[1..] == [second, Plain(204, Null)] + more;
    assert s[1..][1..] == [Plain(204, Null)] + more;
    assert Repeat(base, 1) == [base];
    assert FollowUps(second.resp, s[1..][1..], [base, WithConfirmFlag(a)])
           == Deletion(Ok(()), [base, WithConfirmFlag(a), WithConfirmFlag(b)]);
    assert [base] + [WithConfirmFlag(a)] == [base, WithConfirmFlag(a)];
    assert FollowUps(first.resp, s[1..], [base])
           == Deletion(Ok(()), [base, WithConfirmFlag(a), WithConfirmFlag(b)]);
    assert DeleteAnalysis(client, id, s) == Settle(first.resp, s[1..], [base]);
  }

  /** `dismiss_alert(number, reason, comment)`: a dry run sends nothing;
      otherwise one PATCH, and any status but 200 raises `RuntimeError`.
      Returns the outcome and the replies consumed. */
  function DismissAlert(client: Client, script: seq<Reply>): (r: (Result<()>, nat))
    ensures r.1 <= |script|
    ensures client.dryRun ==> r == (Ok(()), 0)
    ensures !client.dryRun ==> r.1 == Send(script).used
    ensures !client.dryRun ==>
              (r.0.Ok? <==> Send(script).result.Ok? && Send(script).result.value.status == 200)
    ensures !client.dryRun && Send(script).result.Ok? && Send(script).result.value.status != 200 ==>
              r.0 == Err(RuntimeError)
  {
    if client.dryRun then (Ok(()), 0)
    else
      var c := Send(script);
      match c.result
      case Err(e) => (Err(e), c.used)
      case Ok(resp) => (if resp.status == 200 then Ok(()) else Err(RuntimeError), c.used)
  }
}
