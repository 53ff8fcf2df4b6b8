# forgeops-manager core in Dafny

forgeops-manager is a maintenance toolkit for GitHub repositories and
accounts. It bulk-deletes workflow runs, releases, Actions caches and
packages; deletes code-scanning analyses and dismisses alerts; and keeps the
accounts a user follows in step with their followers. This project models
the decision procedures around its REST calls and proves properties of them:
- pagination and response-shape decoding;
- the retrying, rate-limit-aware request executors;
- the code-scanning deletion chain;
- the bulk-delete loops;
- the follow/unfollow set algebra;
- the environment and settings parsers;
- secret redaction and the logging context;
- the token guard;
- the provider's operation registry.

## How the system is represented

- **HTTP exchanges are inputs.** A `Response` is a status, headers and a
  decoded JSON body (`None` when the body is not JSON). A `Reply` is either
  `Answer(response, at)` or `Broken`. `at` is the wall-clock second the
  answer arrived, and stands in for `time.time()`. `Broken` stands for an
  exception from `requests`. A server is a finite sequence of replies,
  consumed one per request in the order the code sends them.
- **Running out of replies.** A sequence that runs out ends the run with the
  error `NoReply`. This error belongs to the model only. Every handler,
  including the source's catch-all ones, lets it through, so no property
  depends on how long a sequence is.
- **Waits are values.** Sleeps are returned as the number of seconds or the
  backoff step, not performed.
- **Exceptions are values.** Each raised exception is an `Err` carrying its
  kind: `ValueError`, `RuntimeError`, `KeyError`, `TokenScopeError`,
  `AuthenticationError`, `GitHubAPIError`, an HTTP status error, and so on.
  A function that returns normally is an `Ok`.
- **Environment.** The process environment is a `map<string, string>`
  passed in.
- **JSON.** Objects are ordered lists of key/value pairs. A lookup of a key
  the document repeats reads its last value, as `json.loads` keeps it.
  Floats are not represented.
- **Headers.** `requests` compares header names without regard to case.
  The model therefore keys a response's headers by the lower-cased name, and
  reads them through lower-case name constants (`Http.RateRemainingHeader`,
  `Http.LinkHeader`, `Http.ScopesHeader`, `Http.ContentTypeHeader`). A header
  is found however the server spells it. `Http.FromWire` builds such a map
  from the header lines as received: it folds each name to lower case and
  joins the values of a repeated name with `", "`, as urllib3 does.
  `Http.FromWireFinds` shows that a header sent once, in any spelling, is
  found under its lower-cased name. The contracts that say "in any
  spelling" are about maps built this way.
- **Text.** Strings are `seq<char>`. `str.strip` uses Python's whitespace
  set. `lower` and `upper` act on ASCII letters only.

The modules follow the source files:
- `Outcome`, `Http`, `Json`, `Text` and `Sorting` hold the shared vocabulary.
- `HttpClient`: `src/utils/http_client.py`.
- `Api` and `Cleanup`: `src/providers/github/api.py`, plus the list-and-delete
  loop common to `actions.py`, `releases.py` and `cache.py`.
- `Actions`, `Releases`, `Cache` and `Packages`: one module per file.
- `SecurityClient` (the `GitHubSecurityClient` class) and `Security` (the
  bulk operations and `clear_vulns`): `security.py`.
- `Social`: `social.py`.
- `Config`, `Logging` and `TokenGuard`: `config.py`,
  `structured_logging.py` and `token_guard.py`.
- `Provider`: `src/providers/base.py`.

## How the pieces compose

- The page and delete replies seen by `Api`, `Cleanup` and the orchestrators
  are what `http_client.get` and `http_client.delete` hand back.
  `HttpClient.Request` models those wrappers' own retries and waits once,
  separately.
- The code-scanning client and the social service each run their own
  executor over one session, so each has a single reply sequence.
- `Security.ClearVulns` models the facade after the caller has supplied the
  session. The token guard that would otherwise prepare it is
  `TokenGuard.EnsureReady`.

## Behaviours the proofs pin down

The model follows the code where it is surprising:
- **Pagination.** `paginate` compares the number of objects on a page with
  `per_page`, not the raw array length. A full page holding one non-object
  therefore ends the listing (`Api.MixedFullPageEndsListing`), and a page
  whose objects are fewer than `per_page` is the last one requested.
- **Rate-limit pre-check.** The token guard reads `remaining` as
  `int(... or 1)`, so a reported 0 becomes 1. An exhausted quota does not
  make it wait; only a negative `remaining` does (`TokenGuard.RateLimitWaitsIff`).
- **`delete_analyses`.** It rescans from the first page after every attempt
  and swallows each deletion error. In dry run, and whenever the first
  candidate survives its deletion, it never finishes:
  `Security.DryRunDeleteNeverFinishes` shows it consumes any supply of
  identical listing replies. The test scenario in
  `tests/test_security.py:31-78` uses a static listing. Under this code such
  a listing re-finds the same record on every rescan. So the model's
  scenario (`Security.DeleteScenarioAnalyses`) lets the server drop each
  deleted record, which the test's mock does not do.
- **Flags.** `_env_flag` reads any set value outside the five true words as
  false, even where `_parse_bool` would fall back to its default.
- **Logging.**
  - `get_logger` never forwards its level to `setup_logging`.
  - In `log_event`, a payload key named `event` or `request_id` overrides
    the entry's own field.
- **Registry.** `has_operation` does not strip the label, while
  `register_operation` does.
- **Packages.**
  - The "delete all" choice of the interactive package flow logs each failed
    delete and goes on.
  - `_delete_package_versions`, like the other bulk deletes, stops at the
    first failure.

## Model

| member | source | states |
|---|---|---|
| Text.Strip | src/providers/base.py:52-61 | the result is a substring of the input with no whitespace at either end, and it is empty exactly when the input is blank |
| Text.StripIdempotent | src/providers/base.py:104 | stripping a stripped string changes nothing |
| Text.StripPadded | src/utils/config.py:57 | blank padding around an unpadded word is all that stripping removes |
| Text.Split | src/utils/config.py:73 | splitting gives at least one piece, no piece holds the separator, and joining the pieces gives back the input |
| Text.SplitJoin | src/utils/config.py:73 | splitting undoes joining when no piece holds the separator |
| Text.ParseInt | src/utils/config.py:91 | a blank string is not a number, and a number read is optionally signed decimal digits once stripped |
| Text.ParseIntReads | src/utils/config.py:91 | a number read is a run of decimal digits with its value, or a sign followed by at least one digit with the signed value of those digits, once stripped |
| Text.ParseSignedDigits | src/utils/config.py:91 | conversely, every non-empty run of digits, bare or after `+` or `-`, with or without surrounding whitespace, reads as its value, negated after `-` |
| Text.ParseIntIgnoresPadding | src/utils/config.py:91 | surrounding whitespace does not change what is read |
| Text.ParseDecimalString | src/utils/config.py:91 | a number written in decimal reads back as itself |
| Text.ParseCsv | src/utils/config.py:66-74 | an absent or empty value is the empty list, and every entry is non-empty, stripped and free of commas |
| Text.ParseCsvHolds | src/providers/github/security.py:527 | the list holds exactly the non-empty results of stripping the comma-separated pieces |
| Text.ParseCsvOfJoin | src/utils/config.py:66-74 | joining trimmed, non-empty, comma-free names with commas and parsing gives back the names |
| Sorting.SortUnique | src/providers/base.py:141 | the result is strictly increasing and holds exactly the elements of the input |
| Sorting.StrictlySortedUnique | src/providers/github/social.py:312-313 | two strictly sorted lists with the same elements are equal |
| Sorting.SortUniqueBySet | src/providers/github/social.py:312-313 | the sorted list depends only on which elements the input holds |
| Json.LookupLast | src/providers/github/packages.py:319 | `dict.get` of a decoded object finds the value of the last member with the key |
| Json.PyInt | src/utils/token_guard.py:235 | an integer reads as itself, a string as what it parses to, and null, lists and objects as no number |
| Json.PyIntOfPyStr | src/providers/github/packages.py:213 | an integer id written into a URL reads back as itself |
| Http.FromWire | src/utils/token_guard.py:140 | every key of the header map is in lower case, and every header line received is found under its lower-cased name |
| Http.FromWireFinds | src/utils/token_guard.py:140 | a header sent once is found under its lower-cased name with its value, however the server capitalised it |
| Http.FromWireOnlySent | src/utils/token_guard.py:140 | a name no header line folds to is not in the map |
| Http.WireLinkHeader | src/providers/github/social.py:386 | a `Link` header spelled `Link`, `LINK` or `link` is read by the pagination with its value |
| Http.OrElse | src/providers/github/security.py:726 | Python `a or b` on strings: the first unless it is empty |
| Http.Clamp | src/providers/github/api.py:94 | `max(lo, min(v, hi))` lies in the range, keeps a value inside it, and maps a value below or above it to the nearer end |
| HttpClient.TokenFromEnv | src/utils/http_client.py:79-89 | a token found is non-empty and already stripped; none found is a RuntimeError |
| HttpClient.TokenFromEnvChooses | src/utils/http_client.py:86 | a non-blank `GH_TOKEN` wins; an empty or unset one defers to `GITHUB_TOKEN`; with both blank the lookup fails |
| HttpClient.BlankGhTokenHidesGithubToken | src/utils/http_client.py:86-88 | a `GH_TOKEN` of spaces is truthy, hides a valid `GITHUB_TOKEN`, and strips to nothing, so the lookup fails |
| HttpClient.ResolveToken | src/utils/http_client.py:107 | an explicit non-empty token wins over the environment |
| HttpClient.BuildGithubHeaders | src/utils/http_client.py:92-113 | headers are built exactly when a token is found; they hold the defaults, `Authorization: Bearer <stripped token>` and the extras, and an extra overrides a default |
| HttpClient.BlankExplicitTokenSendsEmptyBearer | src/utils/http_client.py:107-110 | an explicit token of spaces bypasses the environment but strips to nothing: the header is a bare `Bearer ` |
| HttpClient.BuildGithubUrl | src/utils/http_client.py:330-342 | an empty path is a ValueError; an absolute URL is kept; any other path is placed under the API root with exactly one slash, and the result always starts with a scheme |
| HttpClient.BuildGithubUrlIdempotent | src/utils/http_client.py:338-339 | building a URL from a built URL changes nothing |
| HttpClient.RateLimitWait | src/utils/http_client.py:345-366 | a wait happens exactly when both rate-limit headers are present (in any spelling) and integers and no calls remain; it lasts at least one second and ends after the reset |
| HttpClient.SpentQuotaWaitsUntilReset | src/utils/http_client.py:349-366 | a spent quota with a future reset waits until one second past the reset, whatever case the server wrote the header names in |
| HttpClient.RateLimitWaitEndsAfterReset | src/utils/http_client.py:362-366 | the sleep ends one second after a future reset, and lasts one second when the reset is past |
| HttpClient.BackoffBaseMs | src/utils/http_client.py:373 | the backoff before jitter is between 0.5 and 30 seconds |
| HttpClient.Pow2Monotone | src/utils/http_client.py:373 | powers of two grow with the exponent |
| HttpClient.BackoffMonotone | src/utils/http_client.py:373 | the backoff never shrinks from one attempt to the next |
| HttpClient.BackoffDoublesThenCaps | src/utils/http_client.py:373 | the backoff doubles from 0.5 seconds for the first six attempts and is capped at 30 seconds from the seventh |
| HttpClient.Settle | src/utils/http_client.py:220-272 | a reply that is not retried gives its response when its status is expected; the shared client hands back any other response and re-raises a transport failure, and the social client raises AuthenticationError on 401/403 and GitHubAPIError otherwise |
| HttpClient.Send | src/utils/http_client.py:203-272 | the loop consumes at most six replies, and ends on the first reply it does not retry, or on the sixth attempt, with that reply's outcome |
| HttpClient.SendRetriedStep | src/utils/http_client.py:224-239 | a retried first reply extends the fact that every earlier reply was retried |
| HttpClient.SendRetriedEarlier | src/utils/http_client.py:224-270 | every reply before the one the loop ends on was a retryable status or a transport failure |
| HttpClient.Request | src/utils/http_client.py:157-272 | a missing token fails before anything is sent; a returned response is the last reply's, and one with an unexpected status was not retryable or came on the sixth attempt; a re-raised transport failure came on the sixth attempt |
| HttpClient.RetryThenSucceed | src/utils/http_client.py:224-239 | a transient 503 then a 200 gives one backoff and returns the 200 |
| HttpClient.GivesUpAfterSixFailures | src/utils/http_client.py:254-272 | six transport failures in a row exhaust the retries and re-raise |
| Api.OnlyDicts | src/providers/github/api.py:47-55 | the result holds exactly the elements of the list that are objects, and only objects, and is never longer than the list |
| Api.OnlyDictsAppend | src/providers/github/api.py:47-55 | filtering a concatenation is the concatenation of the filtered parts, so the original order is kept |
| Api.OnlyDictsKeepsObjects | src/providers/github/api.py:47-55 | a list whose elements are all objects comes back unchanged |
| Api.OnlyDictsIdempotent | src/providers/github/api.py:47-55 | filtering a second time changes nothing |
| Api.OnlyDictsFullIsIdentity | src/providers/github/api.py:47-55 | a filter that drops nothing has returned the list itself |
| Api.PerPage | src/providers/github/api.py:88-94 | the page size is always in 1..100; it is 100 when `per_page` is missing or not an integer, the caller's value when that is in range, and clamped into 1..100 otherwise |
| Api.PageQuery | src/providers/github/api.py:87-97 | each page query keeps the caller's parameters and sets `per_page` to the clamped size and `page` to the page number; it has no other keys |
| Api.ChooseKey | src/providers/github/api.py:128-135 | an explicit `array_key` wins; otherwise `workflow_runs` when present, then `caches` when present, otherwise no key |
| Api.FirstList | src/providers/github/api.py:143-152 | nothing is found exactly when no member value is an array; otherwise the result is the first array member in document order |
| Api.ResolveItems | src/providers/github/api.py:116-180 | a list response gives its objects; a non-list, non-object response is a RuntimeError; an object response gives the objects of the chosen key's array, or of its first array member, and is a RuntimeError exactly when it has no array member at all |
| Api.ArrayKeyIsOnlyNamedKey | src/providers/github/api.py:128-152 | when `array_key` names nothing, `workflow_runs` is not tried by name: the first array member is used |
| Api.ReadPage | src/providers/github/api.py:112-114 | a transport failure is a TransportError, a 4xx/5xx status is an HTTP status error with that status, and a page read without error yields only objects |
| Api.ReadPages | src/providers/github/api.py:112-180 | one result per reply, each the reading of that reply, and every page read without error holds only objects |
| Api.WalkPages | src/providers/github/api.py:183-203 | the loop reads at most one page per reply; a normal end and every exception other than running out of replies come after at least one page |
| Api.WalkCompletes | src/providers/github/api.py:183-201 | a loop that ends normally read full pages followed by one empty or short page, and yielded exactly the objects of those pages in order |
| Api.WalkFails | src/providers/github/api.py:112-180 | a loop that ends in an exception read full pages up to the failing page, yielded their objects, and re-raised that page's error |
| Api.WalkRunsOut | src/providers/github/api.py:195-203 | a loop that runs out of replies read nothing but full pages |
| Api.WalkYieldsObjects | src/providers/github/api.py:191-192 | only objects are yielded |
| Api.Paginate | src/providers/github/api.py:58-203 | one request per reply at most, the i-th request carries the query of page i+1, and only objects are yielded |
| Api.MixedFullPageEndsListing | src/providers/github/api.py:195-201 | a full raw page holding one non-object is short once filtered, so the listing stops after one request |
| Api.GhDelete | src/providers/github/api.py:236-246 | the delete succeeds exactly on status 200, 202 or 204 and then returns that status; any other status is a RuntimeError |
| Cleanup.TargetOf | src/providers/github/actions.py:89-100 | an object is deleted exactly when it has a non-null `id`, at the collection URL followed by `/` and the id; a scalar id is written as Python formats it |
| Cleanup.Targets | src/providers/github/actions.py:87-100 | at most one URL per listed object, and none when no object has an id |
| Cleanup.TargetsUnderBase | src/providers/github/actions.py:100 | every URL the loop deletes lies under the collection URL |
| Cleanup.TargetsAppend | src/providers/github/actions.py:87-100 | the targets of a concatenation are the concatenated targets, in listing order |
| Cleanup.TargetsCount | src/providers/github/actions.py:89-98 | objects without an id are skipped: there is exactly one target per listed object with an id |
| Cleanup.DeleteEach | src/providers/github/actions.py:87-126 | the loop never consumes more delete replies than there are |
| Cleanup.DeleteEachBounded | src/providers/github/actions.py:87-126 | the loop consumes at most one delete reply per listed object with an id, and none for an object without one |
| Cleanup.DeleteEachPrefix | src/providers/github/actions.py:102-105 | the URLs deleted are a prefix of the targets, in order, and each was deleted by a successful reply |
| Cleanup.DeleteEachCompletes | src/providers/github/actions.py:102-126 | the loop ends without an exception exactly when every target was deleted, one reply each; an exception leaves at least one target in place |
| Cleanup.DeleteEachStops | src/providers/github/actions.py:111-126 | an exception raised by a delete is the error of the reply right after the last deleted target, and no later reply is consumed |
| Cleanup.DeleteEachAppend | src/providers/github/actions.py:87-126 | looping over two listings in turn is looping over their concatenation, and a failure in the first ends the whole loop |
| Cleanup.DeleteTwoTargets | src/providers/github/actions.py:102-105 | two objects with ids and two successful replies give two deletes, in listing order |
| Cleanup.DeleteEachFailsAt | src/providers/github/actions.py:111-126 | when the first m deletes succeed and the next fails, exactly the first m targets are deleted and that failure is re-raised |
| Cleanup.DeleteEachAllSucceed | src/providers/github/actions.py:102-105 | when every reply succeeds and there are enough of them, every target is deleted and nothing is raised |
| Cleanup.SweepPages | src/providers/github/actions.py:87-126 | the interleaved loop requests at least one page and at most one per page reply |
| Cleanup.SweepIsListThenDelete | src/providers/github/actions.py:87-126 | deleting while paging deletes exactly what listing everything and then deleting would, raises the delete failure if there is one and the listing's outcome otherwise, and never requests more pages than the listing |
| Cleanup.SweepUnderBase | src/providers/github/actions.py:100 | every URL deleted while paging lies under the collection URL |
| Cleanup.Run | src/providers/github/actions.py:84-126 | a cleanup requests at most one page per reply and deletes only URLs under the collection |
| Cleanup.RunMatchesListing | src/providers/github/actions.py:87-126 | the URLs deleted are a prefix of the listing's targets; when every delete succeeds they are all of them, with the listing's page count and outcome |
| Cleanup.RunStopsAtFailedDelete | src/providers/github/actions.py:111-126 | a failure of the (m+1)-th delete is re-raised after exactly the first m targets of the listing were deleted |
| Actions.DeleteCompletedRuns | src/providers/github/actions.py:84-132 | the run cleanup requests at most one page per reply and deletes only URLs under `.../actions/runs/` |
| Actions.QueriesAskForCompleted | src/providers/github/actions.py:88 | every page request asks for `status=completed`, numbered from 1, 100 runs at a time |
| Actions.CleanupDeletesRunsWithId | src/providers/github/actions.py:87-105 | the runs deleted are a prefix of the listed runs with an id; when every delete succeeds all of them are, their number is the number of listed runs with an id, and the outcome is the listing's |
| Actions.CleanupStopsAtFailedDelete | src/providers/github/actions.py:111-126 | a failed delete of the (m+1)-th run with an id is re-raised after exactly the first m were deleted |
| Actions.RegisterActions | src/providers/github/actions.py:240-261 | registering the two menu actions keeps the provider name, maps the cleanup label to the run cleanup and the sync label to the social sync with dry run off, and changes no other label |
| Actions.MenuSyncIsNotDry | src/providers/github/actions.py:248-256 | running the sync label from the menu invokes the social sync with dry run off, running the cleanup label invokes the cleanup, and both labels are listed |
| Releases.DeleteAllReleases | src/providers/github/releases.py:64-116 | the release cleanup requests at most one page per reply and deletes only URLs under `.../releases/` |
| Releases.TwoReleasesTwoDeletes | tests/test_releases.py:63-120 | a raw page of two releases with ids 10 and 20 is the last page: one listing request, then deletes of `.../releases/10` and `.../releases/20` |
| Releases.DeletesListedWithId | src/providers/github/releases.py:68-95 | the releases deleted are a prefix of the listed releases with an id; when every delete succeeds all of them are, one per listed release with an id, and the outcome is the listing's |
| Releases.StopsAtFailedDelete | src/providers/github/releases.py:93-116 | a failed delete of the (m+1)-th release with an id is re-raised after exactly the first m were deleted |
| Cache.DeleteAllActionsCache | src/providers/github/cache.py:69-125 | the cache cleanup requests at most one page per reply and deletes only URLs under `.../actions/caches/` |
| Cache.TwoEntriesTwoDeletes | tests/test_cache.py:56-109 | entries wrapped under `actions_caches`, a key the listing does not name, are found as the first array member: one listing request, then deletes of `.../caches/1` and `.../caches/2` |
| Cache.DeletesListedWithId | src/providers/github/cache.py:73-102 | the entries deleted are a prefix of the listed entries with an id; when every delete succeeds all of them are, one per listed entry with an id, and the outcome is the listing's |
| Cache.StopsAtFailedDelete | src/providers/github/cache.py:99-125 | a failed delete of the (m+1)-th entry with an id is re-raised after exactly the first m were deleted |
| Provider.Lookup | src/providers/base.py:178 | a label finds nothing exactly when no entry carries it; what it finds is the callable stored under it |
| Provider.New | src/providers/base.py:52-62 | a blank name is a ValueError; otherwise the provider keeps the stripped, non-empty name and starts with no operations |
| Provider.Store | src/providers/base.py:104 | a dict assignment: the labels stay as they were when the label is already present, and the new label is appended otherwise |
| Provider.StoreLookup | src/providers/base.py:104 | after the assignment the label finds the new callable and every other label finds what it found before |
| Provider.StoreDistinct | src/providers/base.py:104 | the assignment never makes a label occur twice |
| Provider.Register | src/providers/base.py:86-104 | registration fails exactly when the label is blank or the object is not callable, with a ValueError, and keeps the provider name |
| Provider.RegisterStores | src/providers/base.py:104 | a registration makes the stripped label run the new callable and leaves every other label alone, keeping labels distinct |
| Provider.RegisterHas | src/providers/base.py:104-126 | after a registration a label is present exactly when it is the stripped label or was present before; the presence test does not strip |
| Provider.RegisterThenRun | src/providers/base.py:178-206 | running the stripped label just registered invokes the callable registered |
| Provider.ListOperations | src/providers/base.py:141 | the list is strictly ascending and holds exactly the registered labels |
| Provider.ListOrderFree | src/providers/base.py:141 | the list does not depend on the order in which two operations were registered |
| Provider.Run | src/providers/base.py:165-226 | an unknown key is a KeyError and invokes nothing; a known key returns what invoking its callable returns, result or exception |
| Provider.NewIsEmpty | src/providers/base.py:61-62 | a new provider lists no operation and every run of it is a KeyError |
| SecurityClient.NewClient | src/providers/github/security.py:112-119 | construction succeeds exactly when the token is non-empty and the repository contains `/`, with a ValueError otherwise, and keeps token, repository and dry-run flag |
| SecurityClient.RetryWait | src/providers/github/security.py:170-201 | a wait is called for exactly when the rate-limit headers (in any spelling) say the quota is spent or a 403 mentions "rate limit"; it is at least one second; the header rule gives seconds to the reset plus one, and the 403 fallback gives the same from a readable reset header and 30 seconds otherwise |
| SecurityClient.Send | src/providers/github/security.py:148-209 | a request sends at most two requests; a second one is sent only after a response that calls for a wait under the case-insensitive header rule, and its response is what the caller sees |
| SecurityClient.SendWithoutWait | src/providers/github/security.py:209 | without a wait the first response is returned unchanged after one request |
| SecurityClient.SendRetriesOnce | src/providers/github/security.py:200-207 | a wait costs exactly one extra request, whose response is returned even when it is itself rate-limited |
| SecurityClient.FetchPage | src/providers/github/security.py:216-255 | a page consumes what its request consumed and yields only objects |
| SecurityClient.ListAll | src/providers/github/security.py:212-255 | a listing requests at least one page and yields only objects |
| SecurityClient.PlainSend | src/providers/github/security.py:170-209 | a reply without rate-limit headers that is not a 403 calls for no wait |
| SecurityClient.PlainPage | src/providers/github/security.py:230-247 | an empty 200 page ends the listing, a non-empty page of objects yields them |
| SecurityClient.ListAllReadsEveryPage | src/providers/github/security.py:216-255 | pages are never cut short by size: every non-empty page is read and concatenated until the empty page |
| SecurityClient.ConfirmedUrl | src/providers/github/security.py:300 | the retry after a 400 carries the confirmation flag |
| SecurityClient.WithConfirmFlag | src/providers/github/security.py:349-351 | a follow-up URL always ends up with the confirmation flag, as a prefix extension: unchanged when it already has one, otherwise extended by a separator and `confirm_delete=true` |
| SecurityClient.WithConfirmFlagIdempotent | src/providers/github/security.py:349-351 | flagging a flagged URL changes nothing |
| SecurityClient.FollowTarget | src/providers/github/security.py:318-331 | the confirmation URL wins when truthy, the next URL otherwise, and there is no target exactly when both are falsy |
| SecurityClient.FollowUps | src/providers/github/security.py:331-421 | the follow-up loop sends at most one request per reply, each to a URL carrying the confirmation flag; a number or boolean in place of the URL is a TypeError and a list or object a refused URL, both before anything is sent |
| SecurityClient.Settle | src/providers/github/security.py:312-434 | a status other than 200 or 202 at this point is a RuntimeError with no further request; follow-up requests carry the confirmation flag |
| SecurityClient.DeleteAnalysis | src/providers/github/security.py:257-434 | a dry run sends nothing and succeeds; otherwise the first request goes to the analysis URL and every later one to a URL carrying the confirmation flag, at most one per reply |
| SecurityClient.DeleteDoneOn204 | src/providers/github/security.py:290-296 | a first answer of 204 is done after one DELETE |
| SecurityClient.DeleteConfirmsOn400 | src/providers/github/security.py:299-308 | a 400 asking for confirmation is retried once on the confirmed URL, and a 204 there is done |
| SecurityClient.DeleteDoneWithoutFollowUp | src/providers/github/security.py:322-328 | a 200/202 whose payload names no follow-up URL is done after one DELETE |
| SecurityClient.DeleteRaisesOnOtherStatus | src/providers/github/security.py:423-434 | any other first status, and a 400 that does not ask for confirmation, is a RuntimeError after one DELETE |
| SecurityClient.DeleteFollowsChain | src/providers/github/security.py:331-405 | the chain 200 with a confirmation URL, 200 with a next URL, then 204 sends three DELETEs: the analysis, then both URLs with the confirmation flag |
| SecurityClient.DismissAlert | src/providers/github/security.py:484-516 | a dry run sends nothing and succeeds; otherwise one PATCH, which succeeds exactly on status 200, any other status being a RuntimeError |
| Security.IsToolSelected | src/providers/github/security.py:530-535 | an empty filter selects every record, even one without a tool name; a non-empty filter selects exactly the named tools it lists |
| Security.SelectedByParsedFilter | src/providers/github/security.py:524-535 | for a filter read from a comma list, a tool is selected exactly when the filter is empty or lists its name |
| Security.IntField | src/providers/github/security.py:577-586 | an id is read only from a present, non-null field and is what `int()` makes of it |
| Security.ToolNameShape | src/providers/github/security.py:557-564 | the tool name is present only when `tool` is a dict whose `name` is a string; any other shape gives no name |
| Security.CandidateShape | src/providers/github/security.py:566-571 | a record the scan stops at belongs to a selected tool; a record without `deletable` is never one; with no filter, it is one exactly when `deletable` is truthy |
| Security.FirstCandidate | src/providers/github/security.py:554-571 | the scan stops at the first selected, deletable record of a page, and every record before it is not one |
| Security.ScanPages | src/providers/github/security.py:551-575 | a scan consumes at most the replies there are, and a record it stops at is a selected, deletable one, with no exception |
| Security.ScanAgreesPastPage | src/providers/github/security.py:554-567 | passing over a page with no candidate keeps the scan in step with the listing |
| Security.ScanAgreesInPage | src/providers/github/security.py:569-571 | stopping at the first candidate of a page agrees with the listing, whatever follows |
| Security.ScanPastPageStep | src/providers/github/security.py:554-575 | a page with no candidate sends the scan on to the next page, in step with the listing |
| Security.ScanMatchesListing | src/providers/github/security.py:551-575 | a scan that finds nothing has seen every listed record, none of them a candidate, and ends as the listing does; otherwise it stopped at the listing's first candidate, after the records before it |
| Security.DeleteAnalyses | src/providers/github/security.py:541-621 | the deleted count never exceeds the scanned count |
| Security.DryRunDeleteNeverFinishes | src/providers/github/security.py:549-621 | in a dry run nothing is deleted, so against a server that keeps listing a deletable record the loop rescans forever: it only stops when the replies run out |
| Security.AlertNumberShape | src/providers/github/security.py:653-662 | a missing or null `number` gives no number; a present one gives what `int()` makes of it |
| Security.DismissableShape | src/providers/github/security.py:641-662 | an alert acted on has a present number and a selected tool; with no filter, it is acted on exactly when its number reads as an integer |
| Security.CountDismissable | src/providers/github/security.py:637-661 | at most one dismissal per alert of the page |
| Security.CountDismissableAppend | src/providers/github/security.py:637-661 | the alerts acted on in a concatenation are those of both parts |
| Security.DismissEach | src/providers/github/security.py:637-697 | every alert of a page is counted unless a request ran out of replies, and dismissals never exceed the alerts of a selected tool with an integer number |
| Security.AddCounts | src/providers/github/security.py:635-699 | counters add up across pages, and an exception from a later page escapes |
| Security.DismissAlerts | src/providers/github/security.py:624-699 | dismissals never exceed scanned alerts |
| Security.DismissEachDryRun | src/providers/github/security.py:495-502 | in a dry run a page sends nothing, counts every alert, and "dismisses" every alert of a selected tool with an integer number |
| Security.DismissAlertsDryStep | src/providers/github/security.py:637-699 | a dry-run page is counted in full before the next page is requested |
| Security.DismissDryRunMatchesListing | src/providers/github/security.py:624-699 | a dry run scans exactly the alert listing and dismisses its alerts of a selected tool with an integer number, or raises the listing's exception |
| Security.DismissEachSkips | src/providers/github/security.py:643-661 | an alert of an unselected tool or without an integer number is only counted |
| Security.DismissEachActs | src/providers/github/security.py:676-678 | an alert acted on whose PATCH answers 200 is counted as dismissed |
| Security.DismissNothingListed | src/providers/github/security.py:458-459 | a listing that starts with the empty page dismisses nothing |
| Security.DismissPageOfThree | src/providers/github/security.py:637-697 | two alerts acted on and one not: two PATCHes, three scanned, two dismissed |
| Security.DismissTwoOfThree | src/providers/github/security.py:624-699 | the whole pass over that page and the empty page reports three scanned, two dismissed |
| Security.DismissThreeAlerts | tests/test_security.py:81-127 | alerts 11 (Trivy), 12 (Grype) and "bad" (Trivy) under the Trivy and Grype filter: three scanned, two dismissed |
| Security.DeletedAtOnce | src/providers/github/security.py:290-296 | a 204 to the first DELETE is one reply and a success |
| Security.ScanStopsInPage | src/providers/github/security.py:569-571 | a scan whose first page holds a candidate stops there after one request |
| Security.ScanPassesPage | src/providers/github/security.py:554-567 | a scan passes over a non-empty page with no candidate and counts all its records |
| Security.DeleteRound | src/providers/github/security.py:577-600 | a round that deletes its candidate with one 204 adds its records and one deletion to the next round |
| Security.ScanEmptyPage | src/providers/github/security.py:573-575 | a scan that meets the empty page first ends there having seen nothing |
| Security.DeleteNothingFound | src/providers/github/security.py:573-575 | a scan that finds no candidate ends the loop with the records it saw and no deletion |
| Security.DeleteLastScan | src/providers/github/security.py:554-575 | a last scan over a record that is no candidate and then the empty page counts that record |
| Security.DeleteFirstRound | src/providers/github/security.py:551-600 | the scan of three records stops at a first deletable one, deletes it, and adds one record and one deletion to the rest |
| Security.DeleteSecondRound | src/providers/github/security.py:551-600 | the rescan of two records passes the first and deletes the second |
| Security.DeleteTwoOfThree | src/providers/github/security.py:541-621 | three analyses, the first and last deletable, against a server that drops deleted ones: three scans, four records scanned, two deleted |
| Security.DeleteScenarioAnalyses | tests/test_security.py:31-78 | analyses 101 (Trivy, deletable), 102 (Grype) and 103 (Grype, deletable) under the Trivy and Grype filter: two deletions and four records scanned over three scans |
| Security.AnalysisRecord | src/providers/github/security.py:558-571 | a record of a selected tool is a candidate exactly when it is deletable, and its integer id is read back |
| Security.AlertRecord | src/providers/github/security.py:653-661 | an alert of a selected tool is acted on exactly when its number is a non-null integer |
| Security.WordIsNotInt | src/providers/github/security.py:657-661 | a number such as "bad" is not an integer, so its alert is skipped |
| Security.ResolveToken | src/providers/github/security.py:726 | the token is stripped, and a non-blank argument wins over the environment |
| Security.RunMode | src/providers/github/security.py:760-784 | delete mode reports deletions, dismiss mode with an accepted reason reports dismissals, each at most the records scanned; a reason outside the three or any other mode is a ValueError |
| Security.ClearVulns | src/providers/github/security.py:726-784 | a missing token, a repository without `/`, an unknown mode, and in dismiss mode a reason outside the three accepted ones are each a ValueError; a successful run reports the mode it ran and at most as many changes as records scanned |
| Social.RStripSlash | src/providers/github/social.py:149 | the base URL loses exactly its trailing slashes: the result is a prefix not ending in `/`, and only slashes were removed |
| Social.NewService | src/providers/github/social.py:144-152 | an empty token is an AuthenticationError; otherwise the page size is clamped into 1..100 and the base URL has no trailing slash |
| Social.FromEnv | src/providers/github/social.py:170-178 | a blank or missing environment token is an AuthenticationError; otherwise the service is built from the stripped token |
| Social.MentionsNextShape | src/providers/github/social.py:537-542 | no parts mention a next page, and any part that mentions `rel="next"` once stripped makes the header name one |
| Social.ScanParts | src/providers/github/social.py:538-541 | the scan finds the next relation exactly when some part mentions it |
| Social.HasLinkNext | src/providers/github/social.py:528-541 | an empty header has no next page; otherwise there is one exactly when some comma-separated part mentions `rel="next"` |
| Social.HasLinkNextOfParts | src/providers/github/social.py:537-541 | a header joined from comma-free parts has a next page exactly when one of those parts mentions it |
| Social.LinkNextIsSubstringTest | src/providers/github/social.py:539 | the test is a substring test: a part such as `<u?rel="next">; rel="last"` counts as a next page |
| Social.Accepted | src/providers/github/social.py:411 | the accepted statuses are the caller's, or {200} when the caller gives none |
| Social.Request | src/providers/github/social.py:400-480 | at most six attempts and never more replies than there are; a response returned is the last reply's, with an accepted status |
| Social.RequestErrors | src/providers/github/social.py:435-480 | a request raises AuthenticationError only on a 401 or 403 answer, and otherwise only GitHubAPIError |
| Social.RequestAcceptsAtOnce | src/providers/github/social.py:435-436 | an accepted status comes back after one attempt |
| Social.RequestAuthFailsAtOnce | src/providers/github/social.py:438-442 | a 401 or 403 that is not accepted raises AuthenticationError at once, without retry |
| Social.RequestRejectsAtOnce | src/providers/github/social.py:461 | any other status that is neither accepted nor retryable raises GitHubAPIError at once |
| Social.RequestRetryCeiling | src/providers/github/social.py:444-480 | a request that is still retryable at its last attempt has made six attempts and raises GitHubAPIError |
| Social.RequestRetriedEarlier | src/providers/github/social.py:444-479 | every reply before the one a request ends on was a retryable status or a transport failure |
| Social.RequestWaitsOnRateLimit | src/providers/github/social.py:433 | a reply that reports a spent quota makes the service sleep until the reset before it looks at the status |
| Social.Toggle | src/providers/github/social.py:214-240 | an empty name is a ValueError before any request; a call that returns reports success |
| Social.ToggleAnswered | src/providers/github/social.py:219-220 | a successful call ended on a 204 or 304 answer, and a failed one after a request raised AuthenticationError or GitHubAPIError |
| Social.ToggleOkIffStatus | src/providers/github/social.py:219-226 | on a first answer that is not retried, the call succeeds exactly when the status is 204 or 304, after one request |
| Social.PageObjects | src/providers/github/social.py:368-382 | a page is read exactly when the body is a JSON array, and yields its objects; anything else is a GitHubAPIError |
| Social.Paginate | src/providers/github/social.py:350-398 | the crawl requests at least one page, collects only objects, and can only fail with AuthenticationError or GitHubAPIError; it goes on after a full page or a `Link` header (in any spelling) that names a next page |
| Social.LastPageShape | src/providers/github/social.py:386-390 | only a page with fewer objects than the page size can be the last; with no `Link` header every such page is the last |
| Social.PaginateStops | src/providers/github/social.py:389-390 | a short page with no next link is the last one |
| Social.PaginateContinues | src/providers/github/social.py:384-396 | a full page, or one with a next link, is followed by the crawl of the next page |
| Social.PaginateRejectsNonList | src/providers/github/social.py:370-371 | a 200 page whose body is not an array is a GitHubAPIError |
| Social.Logins | src/providers/github/social.py:189-195 | the logins are exactly the string `login` fields of the listed objects |
| Social.ListLogins | src/providers/github/social.py:183-209 | the listing fails exactly when the crawl fails, with the crawl's error; the login set is kept sorted and free of duplicates |
| Social.NamesOf | src/providers/github/social.py:189-195 | the names fail exactly when the crawl fails and are otherwise sorted without duplicates |
| Social.NamesOfHolds | src/providers/github/social.py:190-193 | a name is in the set exactly when some listed object has it as its string `login` |
| Social.NameSet | src/providers/github/social.py:259-260 | the allow and block sets hold exactly the stripped non-blank names, sorted |
| Social.NameSetHolds | src/providers/github/social.py:259-260 | a name is in the set exactly when it is non-empty and some given name strips to it |
| Social.Minus | src/providers/github/social.py:266-267 | set difference: a name survives exactly when it is in the first set and in neither of the others |
| Social.MakePlan | src/providers/github/social.py:266-267 | follow exactly the followers not yet followed and not blocked; unfollow exactly the followed users who do not follow back and are not allowed; both sorted |
| Social.PlanSeparates | src/providers/github/social.py:266-267 | nobody is both followed and unfollowed, a blocked user is never followed and an allowed user never unfollowed |
| Social.PlanExample | src/providers/github/social.py:266-267 | followers {a, b, c}, following {b, c, d}, block {a} and allow {d} leave nothing to do |
| Social.ErrorTag | src/providers/github/social.py:289 | a skip reason names the class of the caught error |
| Social.Act | src/providers/github/social.py:274-307 | a loop touches only its own names; a dry run sends nothing and skips every name with its dry-run reason; otherwise skips carry an error class, and only an exception that is not a GitHubAPIError escapes |
| Social.ActKeepsOrder | src/providers/github/social.py:274-281 | names are acted on in sorted order |
| Social.ActAccountsForAll | src/providers/github/social.py:274-307 | when nothing escapes, every name is either acted on or skipped, never both |
| Social.Apply | src/providers/github/social.py:274-307 | both loops together use at most the replies there are, and only an uncaught exception escapes |
| Social.ApplyDryRun | src/providers/github/social.py:275-278 | a dry run sends nothing, acts on nobody, and records every planned user under `dry_run_follow` or `dry_run_unfollow` |
| Social.ApplyBestEffort | src/providers/github/social.py:274-307 | outside a dry run the users acted on are planned ones in sorted order, and every planned user is either acted on or skipped with an error class |
| Social.ListBoth | src/providers/github/social.py:262-263 | the two listings together use at most the replies there are |
| Social.Finish | src/providers/github/social.py:266-345 | once both listings are in, the run never uses more replies than there are |
| Social.Sync | src/providers/github/social.py:245-345 | a successful report records the dry-run flag and the cleaned allow and block sets |
| Social.SyncPlans | src/providers/github/social.py:245-327 | a successful run plans to follow exactly the listed followers not yet followed and not blocked, and to unfollow exactly the followed users who do not follow back and are not allowed, both sorted, with the two listing sizes as counts |
| Social.SyncDryRun | src/providers/github/social.py:274-296 | a dry run sends nothing after the listings, acts on nobody, and records every planned user under its dry-run reason |
| Social.SyncBestEffort | src/providers/github/social.py:274-327 | outside a dry run the users acted on are planned ones in sorted order, and every planned user is either acted on or skipped with an error class |
| Config.WordsDisjoint | src/utils/config.py:58-61 | no word of the true list is also in the false list, so the order of the two tests never matters |
| Config.ParseBool | src/utils/config.py:49-63 | a missing value gives the default; a value whose stripped, lower-cased form is a true word gives true, a false word gives false, and any other word the default |
| Config.ParseBoolPadded | src/utils/config.py:57 | surrounding blanks and upper case do not change how a word is read |
| Config.ParseBoolWords | src/utils/config.py:58-61 | each listed word is read as true exactly when it is in the true list, whatever the default |
| Config.ParseBoundedInt | src/utils/config.py:77-98 | a missing, blank or unparseable value gives the default; a value `int()` reads is returned when it is within the bounds and replaced by the default when it is not |
| Config.ParseBoundedIntOfDecimal | src/utils/config.py:88-98 | a decimal numeral is read back as its number when within the bounds, and replaced by the default when not |
| Config.Require | src/utils/config.py:104-149 | without prompting, a missing or blank value is a RuntimeError; otherwise the result is a non-empty, unpadded substring of the value |
| Config.RequireIdempotent | src/utils/config.py:109-110 | a value already obtained is returned unchanged when asked for again |
| Config.ScopeOf | src/utils/config.py:205-291 | a non-empty org is chosen as an org; a user scope happens only without an org and with a non-empty username; a RuntimeError happens exactly when neither is given and GH_OWNER is blank; every scope found has a non-empty name |
| Config.ScopeFromEnv | src/utils/config.py:241-281 | with neither parameter, a scope found is GH_OWNER stripped, taken as an org |
| Config.ScopeOrgWins | src/utils/config.py:228-231 | an explicit org makes the username and the environment irrelevant |
| Config.NewSettings | src/utils/config.py:321-327 | the settings are kept as given exactly when the token is not blank and the page size is within 1..100; otherwise ValueError |
| Config.LevelOf | src/utils/config.py:402-429 | the level is always one of the five names, and any level but INFO is the raw value stripped and upper-cased |
| Config.LevelOfPadded | src/utils/config.py:408-429 | a level name is read regardless of surrounding blanks and in upper case, and an unknown name becomes INFO |
| Config.EnvPageSize | src/utils/config.py:410-418 | the page size read from SYNC_PAGE_SIZE is always within 1..100 |
| Config.SettingsFrom | src/utils/config.py:330-479 | the settings built are valid, with a known level and an unpadded non-empty token; ValueError happens exactly when the chosen token is blank or an explicit page size is outside 1..100 |
| Config.SettingsOverridesWin | src/utils/config.py:384-418 | every explicit argument beats its environment variable |
| Config.SettingsIgnoreEnv | src/utils/config.py:369-418 | with every argument given, the environment makes no difference |
| Config.PageSizeOutOfRange | src/utils/config.py:326-327 | an out-of-range SYNC_PAGE_SIZE falls back to 100, while the same number passed explicitly is a ValueError |
| Config.EmptyTokenOverride | src/utils/config.py:369-382 | an explicit empty token is not replaced by GH_TOKEN and is a ValueError |
| Config.SettingsDefaults | src/utils/config.py:313-319 | with only a token in the environment, the settings are dry run, empty lists, JSON logs, INFO and page size 100 |
| Logging.Redact | src/utils/structured_logging.py:231-242 | an empty value stays empty, one of one to eight characters becomes `***`, and a longer one keeps only its first and last four characters around `***` |
| Logging.RedactHidesMiddle | src/utils/structured_logging.py:240-242 | two long secrets sharing their first and last four characters log alike, as do any two short ones; a redacted value has at most eleven characters |
| Logging.RedactIdempotent | src/utils/structured_logging.py:231-242 | redacting a redacted value changes nothing |
| Logging.RedactPayload | src/utils/structured_logging.py:245-258 | the payload keeps its keys, a value under a non-sensitive key is unchanged, and a value under a key that lower-cases to a sensitive name becomes a string of at most eleven characters |
| Logging.RedactPayloadIdempotent | src/utils/structured_logging.py:245-258 | redacting a payload twice is redacting it once |
| Logging.GetContext | src/utils/structured_logging.py:184-189 | an unset context reads as an empty dict, and a set one as all of its keys and values |
| Logging.SetContext | src/utils/structured_logging.py:159-167 | the context gains or replaces exactly the one key, and every other key keeps its value |
| Logging.ClearContext | src/utils/structured_logging.py:170-181 | no keys empties the context; a list removes exactly those keys; no value is changed |
| Logging.SetThenClear | src/utils/structured_logging.py:159-181 | setting a key and clearing it leaves the previous context without that key |
| Logging.ScopedContext | src/utils/structured_logging.py:192-209 | the block sees the previous context updated by the keyword arguments, and leaving it restores the previous context whatever the block did |
| Logging.ScopedNests | src/utils/structured_logging.py:192-209 | nested scopes merge outer then inner arguments and unwind in order |
| Logging.ParseLevel | src/utils/structured_logging.py:475-486 | the result is a standard level number; a missing value is INFO, and any other level comes from a known name once upper-cased and stripped |
| Logging.ParseLevelPadded | src/utils/structured_logging.py:486 | a level name is read regardless of case and surrounding blanks, and an unknown one is INFO |
| Logging.EnvFlag | src/utils/structured_logging.py:489-493 | an unset variable gives the default; a set one is true exactly for the five true words |
| Logging.EnvFlagVersusParseBool | src/utils/structured_logging.py:489-493 | once set, a variable is read like the settings' boolean parser with a false default, so an unknown word is false rather than the default |
| Logging.EnvInt | src/utils/structured_logging.py:384-385 | an unset variable gives the fallback; a set one is a number exactly when it parses, otherwise a ValueError |
| Logging.EnvIntDefault | src/utils/structured_logging.py:384-385 | the textual default reads back as the default number |
| Logging.RootLevel | src/utils/structured_logging.py:361-367 | the root level is always a standard level number |
| Logging.NewHandlers | src/utils/structured_logging.py:370-394 | one or two handlers are added; without LOG_FILE only the console or null handler; a malformed size or count is a ValueError raised after the first handler |
| Logging.SetupLogging | src/utils/structured_logging.py:341-396 | once configured, nothing changes; otherwise the call either configures or fails with a ValueError, and the flag is raised exactly when it did not fail |
| Logging.SetupAppends | src/utils/structured_logging.py:366-394 | a first call sets a standard root level and only appends handlers after those already attached |
| Logging.SetupIdempotent | src/utils/structured_logging.py:357-359 | after one successful call, every later call changes nothing, whatever its arguments and environment |
| Logging.SetupRetryAddsHandlers | src/utils/structured_logging.py:382-396 | a failed call leaves the flag down, so the next call adds handlers again |
| Logging.GetLogger | src/utils/structured_logging.py:399-409 | the setup runs with no level of its own; the named logger gets the parsed level exactly when a non-empty level is passed and setup succeeded |
| Logging.GetLoggerRootFromEnv | src/utils/structured_logging.py:405 | the level passed to the logger never reaches the root logger, which is INFO when LOG_LEVEL is unset |
| Logging.LogEntry | src/utils/structured_logging.py:427-433 | the entry holds the event, the request id and every payload key with its redacted value, a payload key overriding the event or id of the same name |
| Logging.LogEntryRedacts | src/utils/structured_logging.py:249-250 | under a sensitive key the entry holds the redacted string, at most eleven characters long |
| TokenGuard.SessionHeaders | src/utils/token_guard.py:123-130 | `_build_session` adds four headers to the session, among them the bearer authorization with the token |
| TokenGuard.BuildSession | src/utils/token_guard.py:103-131 | an empty token is a ValueError; any other token gets the session headers |
| TokenGuard.ScopesOf | src/utils/token_guard.py:140-142 | every scope read is non-empty, stripped and free of commas |
| TokenGuard.ScopesOfHolds | src/utils/token_guard.py:141 | a scope is listed exactly when some comma-separated piece of the header strips to it |
| TokenGuard.FetchScopes | src/utils/token_guard.py:134-142 | one `GET /user`; an answer of any status gives the scopes of its `X-OAuth-Scopes` header, in whatever case the server spells it, and a transport failure escapes |
| TokenGuard.MissingScopes | src/utils/token_guard.py:173-194 | nothing is missing when nothing is required or the token reports no scopes; otherwise exactly the required scopes the token lacks |
| TokenGuard.ValidateScopes | src/utils/token_guard.py:173-206 | a TokenScopeError is raised exactly when some required scope is missing |
| TokenGuard.ValidateScopesRepair | src/utils/token_guard.py:194-206 | granting the missing scopes makes the check pass, and more scopes never make a passing check fail |
| TokenGuard.SubObject | src/utils/token_guard.py:233-234 | a missing key gives an empty object, and a value that is not an object is an AttributeError |
| TokenGuard.IntOr | src/utils/token_guard.py:235-236 | a missing key or a zero is the default, any other integer is itself, and unreadable values raise ValueError or TypeError |
| TokenGuard.WaitSeconds | src/utils/token_guard.py:240 | the wait is at least one second and, before the reset, ends one second past it |
| TokenGuard.WaitFor | src/utils/token_guard.py:233-240 | a wait, when there is one, is at least a second; errors reading the payload escape as AttributeError, ValueError or TypeError |
| TokenGuard.RateLimitWaitsIff | src/utils/token_guard.py:235-240 | for a numeric body, the guard waits exactly when `remaining` is negative and `reset` is positive, since a reported 0 is read as 1; the wait lasts until one second past the reset |
| TokenGuard.ExhaustedQuotaNoWait | src/utils/token_guard.py:235-238 | a spent quota with the reset ten seconds away does not wait, while a `remaining` of -1 waits eleven seconds |
| TokenGuard.AwaitRateLimit | src/utils/token_guard.py:212-253 | one `GET /rate_limit`; a transport failure means no wait, the JSON payload is read when the `Content-Type` header (in any case) says JSON, and only payload reading errors escape |
| TokenGuard.ProbeUrl | src/utils/token_guard.py:160-167 | an operation without a probe endpoint has no URL; any URL is under the API root and belongs to a known operation |
| TokenGuard.ProbeUrlShape | src/utils/token_guard.py:271-280 | with the value its path needs, the probe URL is the API root, the repository or organisation path, then the endpoint's tail |
| TokenGuard.ProbePermissions | src/utils/token_guard.py:259-315 | nothing is sent without a URL; otherwise exactly one request is sent and its outcome is only reported |
| TokenGuard.ProbeNeverRaises | src/utils/token_guard.py:293-315 | a 403 is reported as denied and any other status of 400 or more as an HTTP error, never raised |
| TokenGuard.CheckThenProbe | src/utils/token_guard.py:338-341 | the rate limit is checked first; a probe that ran was the second request and used the operation's URL |
| TokenGuard.EnsureReady | src/utils/token_guard.py:321-341 | an empty token is a ValueError before any request; success returns the session headers after `GET /user` then `GET /rate_limit`, with the probe third when it ran |
| TokenGuard.EnsureReadyStopsOnScopes | src/utils/token_guard.py:336-337 | a token lacking a required scope is refused after the single `GET /user`, with no wait and no probe |
| TokenGuard.RequiredScopesTable | src/utils/token_guard.py:148-156 | the table of required scopes, entry by entry: `repo` for releases and cache, `repo` and `workflow` for workflow runs, `read:packages`, `delete:packages` and `security_events` for the others |
| TokenGuard.ProbeEndpointsTable | src/utils/token_guard.py:159-166 | the table of probe endpoints, entry by entry: the same six operations, the repository ones under `/repos/{repo}` and the package ones under `/orgs/{org}`, each asking for one item |
| TokenGuard.RequiredScopes | src/utils/token_guard.py:148-157 | an unknown operation requires `repo`, and every operation requires some scope |
| TokenGuard.GuardCall | src/utils/token_guard.py:351-393 | without a non-empty `token` or `github_token` argument the wrapper raises ValueError before building a session |
| TokenGuard.GuardTokenPrecedence | src/utils/token_guard.py:370-386 | a non-empty `token` wins over `github_token`, which is used only in its place, and the guard runs with the operation's scopes and probe |
| TokenGuard.GuardUnknownOperation | src/utils/token_guard.py:365 | an unknown operation still needs the `repo` scope and has no probe |
| Packages.TypeSegment | src/providers/github/packages.py:152 | an empty type is `container`; any other is stripped and lower-cased, keeping its stripped length |
| Packages.DeleteTypeNotDefaulted | src/providers/github/packages.py:152-154 | the delete helpers do not fall back to `container`: for a type GitHub does not know, the package deleted is not the one the listing asks about |
| Packages.BlankTypeEmptySegment | src/providers/github/packages.py:152 | a blank but non-empty type is truthy, so it is not replaced by `container` and strips to an empty path segment, while the listing uses `container` |
| Packages.ListType | src/providers/github/packages.py:77-85 | the listing type is always a known type: the stripped, lower-cased type when GitHub knows it, `container` otherwise |
| Packages.SupportedTypesAreNormal | src/providers/github/packages.py:54 | every known type is already stripped and lower-case |
| Packages.ListTypeIdempotent | src/providers/github/packages.py:77-85 | normalising the listing type twice changes nothing |
| Packages.ScopeSegment | src/providers/github/packages.py:88 | the path segment is `orgs` exactly for the `org` scope and `users` for anything else |
| Packages.ListQuery | src/providers/github/packages.py:87 | the listing asks for exactly the normalised type and pages of 100 |
| Packages.ListPackages | src/providers/github/packages.py:60-136 | a transport failure, a 4xx or 5xx status, a body that is not JSON and a body that is not an array each raise; otherwise the array's objects are kept in order |
| Packages.ListPackagesKeepsObjects | src/providers/github/packages.py:113-124 | the objects of two parts of the array are kept part by part, in order |
| Packages.PackageUrlAsWritten | src/providers/github/packages.py:153-154 | the URL `_delete_package` sends begins with the scope root followed by eight spaces |
| Packages.PackageUrlAsWrittenLeavesScope | src/providers/github/packages.py:153-154 | the URL as written is not inside the scope's packages collection and differs from the intended one |
| Packages.PackageUrl | src/providers/github/packages.py:153-154 | the package URL lies inside the packages collection the listing reads |
| Packages.VersionsUrlAsWritten | src/providers/github/packages.py:200-201 | the versions collection of `_delete_package_versions` begins with the scope root followed by eight spaces |
| Packages.VersionsUrlAsWrittenLeavesScope | src/providers/github/packages.py:200-201 | the versions URL as written is not inside the scope's packages collection |
| Packages.VersionsUrl | src/providers/github/packages.py:200-201 | the versions collection lies inside the package's URL |
| Packages.ListVersionsUrlAsWritten | src/providers/github/packages.py:310-311 | the versions listing URL of the interactive flow begins with the scope root followed by twenty spaces |
| Packages.ListVersionsUrlAsWrittenLeavesScope | src/providers/github/packages.py:310-311 | the versions listing URL of the interactive flow, as written, is not inside the scope's packages collection |
| Packages.ListVersionsUrl | src/providers/github/packages.py:310-312 | for a known type, the interactive flow lists versions at the collection they are deleted from |
| Packages.DeletePackage | src/providers/github/packages.py:139-180 | the delete succeeds exactly on 200, 202 or 204 and returns that status; any other status is a RuntimeError |
| Packages.DeleteAll | src/providers/github/packages.py:268-288 | each package tried is deleted by its name with its own reply's outcome, in listing order; only a package without a name stops the loop, with KeyError |
| Packages.DeleteAllBestEffort | src/providers/github/packages.py:271-287 | when every package has a name, each one is tried exactly once, whatever the deletes answer |
| Packages.DeleteVersions | src/providers/github/packages.py:183-223 | the versions deleted are a prefix of those given, each with a successful reply; no failure means all were deleted, and a failure is the first failed delete's |
| Packages.VersionUrlAsWritten | src/providers/github/packages.py:213 | the URL one version is deleted at, as written: the versions collection with its stray spaces, a slash and `str(id)`; it is not inside the scope's packages collection |
| Packages.DeletedVersionUrlsAsWritten | src/providers/github/packages.py:212-213 | the URLs `_delete_package_versions` sends, one per deleted version, none of them inside the scope's packages collection |
| Packages.VersionUrl | src/providers/github/packages.py:213 | the corrected URL of one version (see Findings) lies inside its versions collection and so inside the scope's packages collection |
| Packages.DeletedVersionUrls | src/providers/github/packages.py:212-213 | the corrected URLs (see Findings): one per deleted version, each inside the scope's packages collection |
| Packages.DeletedVersionUrlsDiffer | src/providers/github/packages.py:200-213 | every URL the code as written sends differs from the corrected one for the same version |
| Packages.DeleteVersionsAllSucceed | src/providers/github/packages.py:212-223 | with every reply a success, every version is deleted |
| Packages.DeleteVersionsStopsAtFailure | src/providers/github/packages.py:214-221 | when the m-th delete fails, exactly the versions before it are deleted and that failure is raised |
| Packages.VersionId | src/providers/github/packages.py:314-346 | an integer id is kept (a boolean too, since `isinstance(True, int)` holds), a numeric string is read as its number, and a missing, null, list or object id, a string `int()` rejects, or a version that is not an object gives no id |
| Packages.ExtractVersionIds | src/providers/github/packages.py:313-353 | at most one id per listed version, each an integer |
| Packages.ExtractVersionIdsAppend | src/providers/github/packages.py:314 | the ids of two listings are the ids of each, in order |
| Packages.ExtractVersionIdsOfIntegers | src/providers/github/packages.py:321-322 | versions with integer ids contribute exactly those ids, in order |
| Packages.SelectParts | src/providers/github/packages.py:293-299 | every position selected is within the list; an unreadable token is a ValueError |
| Packages.SelectPartsSkipsBlank | src/providers/github/packages.py:294-296 | a blank token is skipped: the selection is that of the remaining tokens |
| Packages.SelectPartsSound | src/providers/github/packages.py:293-299 | every selected position x comes from a non-blank token that `int()` reads as x + 1, with x inside the list |
| Packages.PickSound | src/providers/github/packages.py:294-299 | a position one turn of the loop adds, and the later tokens did not select, comes from a non-blank token read as one above it |
| Packages.PickKeeps | src/providers/github/packages.py:294-299 | a turn that succeeds keeps every position the later tokens selected |
| Packages.SelectPartsFails | src/providers/github/packages.py:293-297 | the selection fails exactly when some non-blank token is not a number |
| Packages.SelectIndices | src/providers/github/packages.py:291-299 | the comma-separated answer selects positions within the list, or fails with ValueError |
| Packages.SelectPartsKeepsTail | src/providers/github/packages.py:293-299 | everything the later tokens select is still selected |
| Packages.SelectPartsHead | src/providers/github/packages.py:297-299 | a leading number within range selects its package first |
| Packages.SelectPartsKeepsInRange | src/providers/github/packages.py:293-299 | a token naming a package in range selects it |
| Packages.SelectPartsOutOfRange | src/providers/github/packages.py:298 | a leading number out of range is dropped |
| Packages.Selected | src/providers/github/packages.py:299-301 | the selected packages, one per index, in the order the indices were given |

## Left out

- Interactive prompts are left out: `owner_repo_or_prompt`, every `input()` branch, `interactive_clear_vulns` and the menu loop. They read from a terminal. The model takes the answers as parameters, or models the branch the answer selects.
- `main()`, the CLI argument handling, `run_social_sync` and the `__repr__` and report-printing helpers are left out. They are glue around the modelled operations.
- The `requests` transport and the cached session of `src/utils/http_client.py` are left out. Replies are an input sequence instead.
- `time.sleep` and `time.time` are left out. Waits are returned as values, and the clock is the `at` field of each reply.
- The random jitter added to each backoff is left out, because it is a float drawn at random. The model keeps the deterministic base delay in milliseconds.
- JSON floats are not represented, and the model has no JSON text parser. A body is either a decoded value or "not JSON".
- Log sinks are left out: the JSON formatter, handlers, hostname, UUID request ids, the correlation headers and the thread semantics of `ContextVar`. The model keeps only the level, the flags, the context map, redaction and the entry that `log_event` builds.
- The timestamps in `SocialSyncReport.to_json` are left out: they come from the clock.
- `src/utils/http.py`, `src/utils/runtime.py` and the GitLab provider are not part of this model.
- Python `int()` here accepts only a sign and ASCII digits. Underscore separators and non-ASCII digits are not accepted. Case mapping covers ASCII letters only.
- `NoReply` belongs to the model only: it is what a finite reply sequence gives once it is exhausted. Because of it, the non-terminating rescan of `delete_analyses` shows up as `NoReply` rather than as a loop that never ends.
- Json.PyStr: Python's `str()` of a list or an object (`['a']`, `{'k': 1}`) is not modelled, because it needs Python's `repr` of nested strings with their quoting and escapes. A list renders as the placeholder `[...]` and an object as `{...}`; scalars render as Python renders them.
- Api.FirstList: an object that repeats a key is walked member by member in document order, so the first of the repeated members is seen with its own value. Python's `dict.values()` yields the repeated key once, at its first position but with its last value. Objects whose keys are distinct are read exactly.
- Cleanup.TargetOf: a list or object `id` is spliced into the URL through `Json.PyStr`, so its text is the placeholder, not Python's `str()`. Scalar ids are exact.
- Logging.RedactPayload: a sensitive value that is a list or object is redacted from `Json.PyStr`'s placeholder, so the masked text differs from Python's, which masks the `str()` of the whole value. Scalar values are exact.
- Packages.DeleteAll: a package `name` that is a list or object is formatted through `Json.PyStr`'s placeholder. String names are exact.
- `Api`, `Cleanup` and `Packages` receive the replies of `http_client.get` and `http_client.delete`. When no token is set, those wrappers raise `RuntimeError` before anything is sent. There that can only appear as a `Broken` reply, which reads as `TransportError`: the control flow is the same and only the error kind differs. `HttpClient.Request` models the token check itself.
- Security.ClearVulns: the session is supplied by the caller. The branch that builds it through `ensure_github_token_ready` when none is given is modelled separately as `TokenGuard.EnsureReady`, not composed with the facade.
- Packages.DeletedVersionUrls: it gives the corrected per-version URLs, not the ones line 213 sends. Those are `Packages.DeletedVersionUrlsAsWritten`, with the stray spaces of lines 200-201 (see Findings).
- HttpClient.Send: the sequence of pauses is not described in general. The contract states the replies consumed and the outcome. The exact pauses are stated only for the scenarios `HttpClient.RetryThenSucceed` and `HttpClient.GivesUpAfterSixFailures`.
- HttpClient.Request: like `HttpClient.Send`, it does not state the pauses taken between retries.
- Social.Request: its contract states the attempts and the accepted response. The error kinds are stated in `Social.RequestErrors`, and the pauses are not stated in general.

## Findings

| source | as written | input that shows it | evidently intended | confidence | as-written member | corrected member |
|---|---|---|---|---|---|---|
| src/providers/github/packages.py:153-154 | the backslash-newline inside the f-string keeps the next line's eight spaces of indentation in the URL of `_delete_package` | typ `org`, name `acme`, type `container`, package `app` gives `https://api.github.com/orgs        /acme/packages/container/app` | `https://api.github.com/orgs/acme/packages/container/app` | not executed | Packages.PackageUrlAsWrittenLeavesScope | Packages.PackageUrl |
| src/providers/github/packages.py:200-201 | the same eight spaces end up in the versions URL of `_delete_package_versions` | typ `org`, name `acme`, type `container`, package `app` gives `https://api.github.com/orgs        /acme/packages/container/app/versions` | `https://api.github.com/orgs/acme/packages/container/app/versions` | not executed | Packages.VersionsUrlAsWrittenLeavesScope | Packages.VersionsUrl |
| src/providers/github/packages.py:213 | each version is deleted at `{url_base}/{vid}`, so every per-version URL inherits the eight spaces of lines 200-201 | typ `org`, name `acme`, type `container`, package `app`, id 1 gives `https://api.github.com/orgs        /acme/packages/container/app/versions/1` | `https://api.github.com/orgs/acme/packages/container/app/versions/1` | not executed | Packages.DeletedVersionUrlsAsWritten | Packages.DeletedVersionUrls |
| src/providers/github/packages.py:310-311 | twenty spaces of indentation end up in the versions listing URL of the interactive flow | typ `user`, name `me`, type `npm`, package `app` gives `https://api.github.com/users` followed by twenty spaces and `/me/packages/npm/app/versions` | `https://api.github.com/users/me/packages/npm/app/versions` | not executed | Packages.ListVersionsUrlAsWrittenLeavesScope | Packages.ListVersionsUrl |
