/** The HTTP exchange as the toolkit observes it through `requests`, and the
    process environment. A server is a finite script of replies consumed in
    order, one per request the code sends.
 */
module Http {
  import opened Outcome
  import opened Json
  import Text

  /** One HTTP response. `body` is the decoded JSON payload, `None` when the
      text is not valid JSON (so `Response.json()` raises). `requests` keeps
      headers in a case-insensitive dictionary, so `headers` is keyed by the
      lower-cased header name: however the server spells a header, it is
      found under that one key; `FromWire` builds such a map from the
      header lines received. */
  datatype Response = Response(status: int, headers: map<string, string>, text: string, body: Option<Json>)

  /** Every key is its own lower case. */
  predicate LowerKeys(headers: map<string, string>) {
    forall k | k in headers :: Text.Lower(k) == k
  }

  /** One header line added under the lower-cased key `k`: a new key
      takes the value, a repeated one gets it appended after `", "`. */
  function AddLine(h: map<string, string>, k: string, value: string): (r: map<string, string>)
    ensures r.Keys == h.Keys + {k}
    ensures k !in h ==> r[k] == value
    ensures forall k' | k' in h && k' != k :: r[k'] == h[k']
  {
    if k in h then h[k := h[k] + ", " + value] else h[k := value]
  }

  /** The headers of a response as `requests` holds them, built from the
      header lines in the order received: urllib3 joins the values of a
      repeated name with `", "`, and the case-insensitive dictionary finds
      a name however it is spelled, which is a map keyed by the lower-cased
      name. */
  function FromWire(lines: seq<(string, string)>): (h: map<string, string>)
    ensures LowerKeys(h)
    ensures forall i | 0 <= i < |lines| :: Text.Lower(lines[i].0) in h
    decreases |lines|
  {
    if lines == [] then map[]
    else
      var init := lines[..|lines| - 1];
      var last := lines[|lines| - 1];
      Text.LowerIdempotent(last.0);
      assert forall i | 0 <= i < |init| :: init[i] == lines[i];
      AddLine(FromWire(init), Text.Lower(last.0), last.1)
  }

  /** Only names that were sent are keys. */
  lemma {:induction false} FromWireOnlySent(lines: seq<(string, string)>, k: string)
    requires forall j | 0 <= j < |lines| :: Text.Lower(lines[j].0) != k
    ensures k !in FromWire(lines)
    decreases |lines|
  {
    if lines != [] {
      var init := lines[..|lines| - 1];
      assert forall j | 0 <= j < |init| :: init[j] == lines[j];
      FromWireOnlySent(init, k);
    }
  }

  /** A header sent once, in any spelling, is found under its lower-cased
      name with its value. */
  lemma {:induction false} FromWireFinds(lines: seq<(string, string)>, i: int)
    requires 0 <= i < |lines|
    requires forall j | 0 <= j < |lines| && j != i :: Text.Lower(lines[j].0) != Text.Lower(lines[i].0)
    ensures FromWire(lines)[Text.Lower(lines[i].0)] == lines[i].1
    decreases |lines|
  {
    var init := lines[..|lines| - 1];
    var last := lines[|lines| - 1];
    var key := Text.Lower(lines[i].0);
    assert FromWire(lines) == AddLine(FromWire(init), Text.Lower(last.0), last.1);
    assert forall j | 0 <= j < |init| :: init[j] == lines[j];
    if i < |lines| - 1 {
      FromWireFinds(init, i);
      assert Text.Lower(last.0) != key;
    } else {
      FromWireOnlySent(init, key);
    }
  }

  /** A `Link` header, however it is capitalised, is found under the key
      the pagination reads. */
  lemma WireLinkHeader(name: string, value: string)
    requires name in {"Link", "LINK", "link"}
    ensures FromWire([(name, value)]) == map[LinkHeader := value]
  {
    assert Text.Lower(name) == LinkHeader;
  }

  /** What one `session.request(...)` call produces: a response received at
      wall-clock second `at`, or a `requests.RequestException`. */
  datatype Reply = Answer(resp: Response, at: int) | Broken

  /** `Response.json()`. */
  function DecodeBody(r: Response): (j: Result<Json>)
    ensures j.Ok? <==> r.body.Some?
  {
    if r.body.Some? then Ok(r.body.value) else Err(BadJson)
  }

  /** `resp.headers.get(name)` for a header name given in lower case; the
      names the toolkit reads are the lower-case constants below. */
  function Header(r: Response, name: string): Option<string> {
    if name in r.headers then Some(r.headers[name]) else None
  }

  /** `resp.headers.get(name, "")`, with `name` in lower case. */
  function HeaderOrEmpty(r: Response, name: string): string {
    if name in r.headers then r.headers[name] else ""
  }

  /** The process environment. */
  type Env = map<string, string>

  /** `os.getenv(name)`. */
  function GetEnv(env: Env, name: string): Option<string> {
    if name in env then Some(env[name]) else None
  }

  /** `os.getenv(name) or ""`: an unset and an empty variable read alike. */
  function EnvOrEmpty(env: Env, name: string): string {
    if name in env then env[name] else ""
  }

  /** Python `a or b` on strings: the first one unless it is empty. */
  function OrElse(a: string, b: string): (r: string)
    ensures a != [] ==> r == a
    ensures a == [] ==> r == b
  {
    if a != [] then a else b
  }

  /** Root of the GitHub REST API. */
  const GithubApi: string := "https://api.github.com"

  /** Statuses worth retrying: 429 Too Many Requests (section 4 of RFC 6585)
      and the transient 5xx server errors of section 15.6 of RFC 9110. */
  const RetryableStatus: set<int> := {429, 500, 502, 503, 504}

  /** Retries after the first attempt, so at most `MaxRetries + 1` requests. */
  const MaxRetries: nat := 5

  /** The GitHub rate-limit headers `X-RateLimit-Remaining` and
      `X-RateLimit-Reset`, as keys of a response's headers. */
  const RateRemainingHeader: string := "x-ratelimit-remaining"
  const RateResetHeader: string := "x-ratelimit-reset"

  /** The `Link` header of a paginated answer. */
  const LinkHeader: string := "link"

  /** The `X-OAuth-Scopes` header listing a classic token's scopes. */
  const ScopesHeader: string := "x-oauth-scopes"

  /** The `Content-Type` header. */
  const ContentTypeHeader: string := "content-type"

  /** `max(lo, min(v, hi))`. */
  function Clamp(v: int, lo: int, hi: int): (r: int)
    requires lo <= hi
    ensures lo <= r <= hi
    ensures lo <= v <= hi ==> r == v
    ensures v < lo ==> r == lo
    ensures v > hi ==> r == hi
  {
    if v < lo then lo else if v > hi then hi else v
  }
}
