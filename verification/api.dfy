/** The shared GitHub helpers of `src/providers/github/api.py`: keeping the
    objects of a JSON array, the generic paginator with its response-shape
    decoding, and the status check of `gh_delete`.

    Each page request is answered by one `Reply`: the outcome of the
    `http_client.get` wrapper, whose own retries are modelled in `HttpClient`.
    A `Broken` reply is an exception escaping that wrapper.
 */
module Api {
  import opened Outcome
  import opened Json
  import opened Http

  /** `_only_dicts`: the object elements of a JSON array, in order. */
  function OnlyDicts(s: seq<Json>): (r: seq<Json>)
    ensures |r| <= |s|
    ensures forall i | 0 <= i < |r| :: r[i].Obj?
    ensures forall x :: x in r <==> x in s && x.Obj?
  {
    if s == [] then []
    else
      var rest := OnlyDicts(s[1..]);
      assert forall x :: x in s <==> x == s[0] || x in s[1..] by {
        assert s == [s[0]] + s[1..];
      }
      (if s[0].Obj? then [s[0]] else []) + rest
  }

  /** Filtering distributes over concatenation, so it keeps the relative order. */
  lemma {:induction false} OnlyDictsAppend(a: seq<Json>, b: seq<Json>)
    ensures OnlyDicts(a + b) == OnlyDicts(a) + OnlyDicts(b)
    decreases |a|
  {
    if a == [] {
      assert a + b == b;
    } else {
      assert (a + b)[0] == a[0];
      assert (a + b)[1..] == a[1..] + b;
      OnlyDictsAppend(a[1..], b);
    }
  }

  /** A list of objects is left as it is. */
  lemma {:induction false} OnlyDictsKeepsObjects(s: seq<Json>)
    requires forall i | 0 <= i < |s| :: s[i].Obj?
    ensures OnlyDicts(s) == s
    decreases |s|
  {
    if s != [] {
      OnlyDictsKeepsObjects(s[1..]);
    }
  }

  /** Filtering twice is filtering once. */
  lemma OnlyDictsIdempotent(s: seq<Json>)
    ensures OnlyDicts(OnlyDicts(s)) == OnlyDicts(s)
  {
    OnlyDictsKeepsObjects(OnlyDicts(s));
  }

  /** The page size `paginate` sends: the caller's `per_page` read with `int()`,
      100 when absent or unreadable, clamped into [1, 100]. */
  function PerPage(params: map<string, Json>): (n: int)
    ensures 1 <= n <= 100
    ensures "per_page" !in params ==> n == 100
    ensures "per_page" in params && PyInt(params["per_page"]).None? ==> n == 100
    ensures ("per_page" in params && PyInt(params["per_page"]).Some? && 1 <= PyInt(params["per_page"]).value <= 100)
              ==> n == PyInt(params["per_page"]).value
    ensures ("per_page" in params && PyInt(params["per_page"]).Some? && PyInt(params["per_page"]).value < 1) ==> n == 1
    ensures ("per_page" in params && PyInt(params["per_page"]).Some? && PyInt(params["per_page"]).value > 100) ==> n == 100
  {
    var raw := if "per_page" in params then PyInt(params["per_page"]) else Some(100);
    Clamp(raw.GetOr(100), 1, 100)
  }

  /** The query of page number `page`: the caller's parameters with `per_page`
      and `page` set. */
  function PageQuery(params: map<string, Json>, page: int): (q: map<string, Json>)
    ensures q.Keys == params.Keys + {"per_page", "page"}
    ensures q["page"] == Int(page) && q["per_page"] == Int(PerPage(params))
    ensures forall k | k in params && k != "per_page" && k != "page" :: q[k] == params[k]
  {
    params["per_page" := Int(PerPage(params))]["page" := Int(page)]
  }

  /** The key tried first on an object response: `array_key` if given, else
      `workflow_runs`, else `caches`, when present. */
  function ChooseKey(fields: seq<(string, Json)>, arrayKey: Option<string>): (k: Option<string>)
    ensures arrayKey.Some? ==> k == arrayKey
    ensures arrayKey.None? && Lookup(fields, "workflow_runs").Some? ==> k == Some("workflow_runs")
    ensures arrayKey.None? && Lookup(fields, "workflow_runs").None? ==>
              k == (if Lookup(fields, "caches").Some? then Some("caches") else None)
  {
    if arrayKey.Some? then arrayKey
    else if Lookup(fields, "workflow_runs").Some? then Some("workflow_runs")
    else if Lookup(fields, "caches").Some? then Some("caches")
    else None
  }

  /** The first member value that is an array, in document order. */
  function FirstList(fields: seq<(string, Json)>): (r: Option<seq<Json>>)
    ensures r.None? <==> forall i | 0 <= i < |fields| :: !fields[i].1.Arr?
    ensures r.Some? ==> exists i | 0 <= i < |fields| ::
                          (fields[i].1 == Arr(r.value) && forall j | 0 <= j < i :: !fields[j].1.Arr?)
  {
    if fields == [] then None
    else if fields[0].1.Arr? then Some(fields[0].1.items)
    else
      var r := FirstList(fields[1..]);
      assert forall i | 0 <= i < |fields[1..]| :: fields[1..][i] == fields[i + 1];
      if r.Some? then
        var i :| 0 <= i < |fields[1..]| && fields[1..][i].1 == Arr(r.value)
                 && forall j | 0 <= j < i :: !fields[1..][j].1.Arr?;
        assert fields[i + 1].1 == Arr(r.value);
        assert forall j | 0 <= j < i + 1 :: !fields[j].1.Arr? by {
          forall j | 0 <= j < i + 1 ensures !fields[j].1.Arr? {
            if j > 0 {
              assert fields[j] == fields[1..][j - 1];
            }
          }
        }
        r
      else r
  }

  /** The objects a decoded page contributes, or the `RuntimeError` raised for
      a shape `paginate` cannot read. */
  function ResolveItems(data: Json, arrayKey: Option<string>): (r: Result<seq<Json>>)
    ensures data.Arr? ==> r == Ok(OnlyDicts(data.items))
    ensures !data.Arr? && !data.Obj? ==> r == Err(RuntimeError)
    ensures data.Obj? ==> (r.Err? <==> forall i | 0 <= i < |data.fields| :: !data.fields[i].1.Arr?)
    ensures r.Err? ==> r.error == RuntimeError
    ensures r.Ok? ==> forall i | 0 <= i < |r.value| :: r.value[i].Obj?
    ensures data.Obj? && ChooseKey(data.fields, arrayKey).Some?
            && Lookup(data.fields, ChooseKey(data.fields, arrayKey).value).Some?
            && Lookup(data.fields, ChooseKey(data.fields, arrayKey).value).value.Arr?
            ==> r == Ok(OnlyDicts(Lookup(data.fields, ChooseKey(data.fields, arrayKey).value).value.items))
    ensures data.Obj? && !(ChooseKey(data.fields, arrayKey).Some?
                           && Lookup(data.fields, ChooseKey(data.fields, arrayKey).value).Some?
                           && Lookup(data.fields, ChooseKey(data.fields, arrayKey).value).value.Arr?)
            && FirstList(data.fields).Some?
            ==> r == Ok(OnlyDicts(FirstList(data.fields).value))
  {
    match data
    case Arr(xs) => Ok(OnlyDicts(xs))
    case Obj(fields) =>
      var key := ChooseKey(fields, arrayKey);
      if key.Some? && Lookup(fields, key.value).Some? && Lookup(fields, key.value).value.Arr? then
        var i :| 0 <= i < |fields| && fields[i] == (key.value, Lookup(fields, key.value).value);
        Ok(OnlyDicts(Lookup(fields, key.value).value.items))
      else if FirstList(fields).Some? then Ok(OnlyDicts(FirstList(fields).value))
      else Err(RuntimeError)
    case _ => Err(RuntimeError)
  }

  /** `array_key` is the only named key tried: when it names nothing usable,
      the first array member is taken even if `workflow_runs` holds one. */
  lemma ArrayKeyIsOnlyNamedKey(fields: seq<(string, Json)>, k: string, runs: seq<Json>)
    requires Lookup(fields, k).None?
    requires |fields| >= 1 && fields[0] == ("workflow_runs", Arr(runs))
    ensures ResolveItems(Obj(fields), Some(k)) == Ok(OnlyDicts(runs))
  {
  }

  /** What one page reply yields: the page's objects, or the exception that
      ends the iteration (`raise_for_status`, `json()`, or the shape check). */
  function ReadPage(reply: Reply, arrayKey: Option<string>): (r: Result<seq<Json>>)
    ensures r.Ok? ==> reply.Answer? && !(400 <= reply.resp.status < 600) && reply.resp.body.Some?
                      && r == ResolveItems(reply.resp.body.value, arrayKey)
    ensures reply.Broken? ==> r == Err(TransportError)
    ensures reply.Answer? && 400 <= reply.resp.status < 600 ==> r == Err(HttpStatusError(reply.resp.status))
    ensures r.Ok? ==> forall i | 0 <= i < |r.value| :: r.value[i].Obj?
  {
    match reply
    case Broken => Err(TransportError)
    case Answer(resp, _) =>
      if 400 <= resp.status < 600 then Err(HttpStatusError(resp.status))
      else
        match DecodeBody(resp)
        case Err(e) => Err(e)
        case Ok(data) => ResolveItems(data, arrayKey)
  }

  /** Every page reply read in turn. */
  function ReadPages(script: seq<Reply>, arrayKey: Option<string>): (pages: seq<Result<seq<Json>>>)
    ensures |pages| == |script|
    ensures forall i | 0 <= i < |script| :: pages[i] == ReadPage(script[i], arrayKey)
    ensures forall i | 0 <= i < |pages| :: pages[i].Ok? ==> forall j | 0 <= j < |pages[i].value| :: pages[i].value[j].Obj?
  {
    seq(|script|, i requires 0 <= i < |script| => ReadPage(script[i], arrayKey))
  }

  /** How far the paging loop got: the objects yielded, the number of pages
      requested, and the exception that ended it, if any. */
  datatype Walk = Walk(items: seq<Json>, pages: nat, failure: Option<Error>)

  /** The paging loop of `paginate` over already-read pages: stop after an
      empty page or one with fewer than `size` objects, or at the first error. */
  function WalkPages(size: int, pages: seq<Result<seq<Json>>>): (w: Walk)
    ensures w.pages <= |pages|
    ensures w.failure.None? ==> w.pages >= 1
    ensures w.failure.Some? && w.failure != Some(NoReply) ==> w.pages >= 1
    decreases |pages|
  {
    if pages == [] then Walk([], 0, Some(NoReply))
    else if pages[0].Err? then Walk([], 1, Some(pages[0].error))
    else if pages[0].value == [] then Walk([], 1, None)
    else if |pages[0].value| < size then Walk(pages[0].value, 1, None)
    else
      var next := WalkPages(size, pages[1..]);
      Walk(pages[0].value + next.items, next.pages + 1, next.failure)
  }

  /** The objects of the first `n` pages, all of which must have been read. */
  function Collected(pages: seq<Result<seq<Json>>>, n: nat): seq<Json>
    requires n <= |pages|
    requires forall i | 0 <= i < n :: pages[i].Ok?
  {
    if n == 0 then [] else pages[0].value + Collected(pages[1..], n - 1)
  }

  /** The first `n` pages were read and hold at least `size` objects each. */
  predicate FullPages(pages: seq<Result<seq<Json>>>, size: int, n: nat)
    requires n <= |pages|
  {
    forall i | 0 <= i < n :: pages[i].Ok? && |pages[i].value| >= size
  }

  /** A loop that ends normally read full pages up to a last page holding fewer
      than `size` objects, and yielded exactly their objects. */
  lemma {:induction false} WalkCompletes(size: int, pages: seq<Result<seq<Json>>>)
    requires size >= 1
    requires WalkPages(size, pages).failure.None?
    ensures var w := WalkPages(size, pages);
            FullPages(pages, size, w.pages - 1)
            && pages[w.pages - 1].Ok? && |pages[w.pages - 1].value| < size
            && w.items == Collected(pages, w.pages)
    decreases |pages|
  {
    if pages[0].Ok? && pages[0].value != [] && |pages[0].value| >= size {
      WalkCompletes(size, pages[1..]);
      assert forall i | 0 <= i < |pages| - 1 :: pages[1..][i] == pages[i + 1];
    } else {
      assert Collected(pages[1..], 0) == [];
    }
  }

  /** A loop that ends in an exception read full pages up to the failing one,
      which yields nothing. */
  lemma {:induction false} WalkFails(size: int, pages: seq<Result<seq<Json>>>)
    requires WalkPages(size, pages).failure.Some? && WalkPages(size, pages).failure != Some(NoReply)
    ensures var w := WalkPages(size, pages);
            FullPages(pages, size, w.pages - 1)
            && pages[w.pages - 1] == Err(w.failure.value)
            && w.items == Collected(pages, w.pages - 1)
    decreases |pages|
  {
    if pages[0].Ok? {
      WalkFails(size, pages[1..]);
      assert forall i | 0 <= i < |pages| - 1 :: pages[1..][i] == pages[i + 1];
    }
  }

  /** A loop that runs out of replies read nothing but full pages. */
  lemma {:induction false} WalkRunsOut(size: int, pages: seq<Result<seq<Json>>>)
    requires forall i | 0 <= i < |pages| :: pages[i] != Err(NoReply)
    requires WalkPages(size, pages).failure == Some(NoReply)
    ensures var w := WalkPages(size, pages);
            w.pages == |pages| && FullPages(pages, size, |pages|) && w.items == Collected(pages, |pages|)
    decreases |pages|
  {
    if pages != [] {
      assert pages[0] != Err(NoReply);
      WalkRunsOut(size, pages[1..]);
      assert forall i | 0 <= i < |pages| - 1 :: pages[1..][i] == pages[i + 1];
    }
  }

  /** Only objects are yielded. */
  lemma {:induction false} WalkYieldsObjects(size: int, pages: seq<Result<seq<Json>>>)
    requires forall i | 0 <= i < |pages| :: pages[i].Ok? ==> forall j | 0 <= j < |pages[i].value| :: pages[i].value[j].Obj?
    ensures forall x | x in WalkPages(size, pages).items :: x.Obj?
    decreases |pages|
  {
    if pages != [] && pages[0].Ok? && |pages[0].value| >= size && pages[0].value != [] {
      assert forall i | 0 <= i < |pages| - 1 :: pages[1..][i] == pages[i + 1];
      WalkYieldsObjects(size, pages[1..]);
    }
  }

  /** What a `paginate` iteration produced: the yielded objects, the query of
      every page requested, and the exception that ended it, if any. */
  datatype Listing = Listing(items: seq<Json>, queries: seq<map<string, Json>>, failure: Option<Error>)

  /** `paginate(url, params, array_key)`, one reply per page request. */
  function Paginate(params: map<string, Json>, arrayKey: Option<string>, script: seq<Reply>): (l: Listing)
    ensures |l.queries| <= |script|
    ensures forall i | 0 <= i < |l.queries| :: l.queries[i] == PageQuery(params, i + 1)
    ensures forall x | x in l.items :: x.Obj?
  {
    var pages := ReadPages(script, arrayKey);
    var w := WalkPages(PerPage(params), pages);
    WalkYieldsObjects(PerPage(params), pages);
    Listing(w.items, seq(w.pages, i => PageQuery(params, i + 1)), w.failure)
  }

  /** A full page whose raw array holds one non-object is short once filtered,
      so pagination ends there. */
  lemma MixedFullPageEndsListing(params: map<string, Json>, xs: seq<Json>, k: nat, resp: Response, at: int, more: seq<Reply>)
    requires |xs| == PerPage(params) && k < |xs| && !xs[k].Obj?
    requires !(400 <= resp.status < 600) && resp.body == Some(Arr(xs))
    ensures Paginate(params, None, [Answer(resp, at)] + more).queries == [PageQuery(params, 1)]
    ensures Paginate(params, None, [Answer(resp, at)] + more).failure.None?
  {
    var s := [Answer(resp, at)] + more;
    assert !(xs[k] in OnlyDicts(xs));
    assert xs[k] in xs;
    assert |OnlyDicts(xs)| < |xs| by {
      if |OnlyDicts(xs)| == |xs| {
        OnlyDictsFullIsIdentity(xs);
      }
    }
  }

  /** A filter that drops nothing kept everything. */
  lemma {:induction false} OnlyDictsFullIsIdentity(s: seq<Json>)
    requires |OnlyDicts(s)| == |s|
    ensures OnlyDicts(s) == s
    decreases |s|
  {
    if s != [] {
      assert s[0].Obj?;
      OnlyDictsFullIsIdentity(s[1..]);
    }
  }

  /** `gh_delete(url)`: the status is returned when it is 200, 202 or 204;
      anything else raises `RuntimeError`. */
  function GhDelete(reply: Reply): (r: Result<int>)
    ensures r.Ok? <==> reply.Answer? && reply.resp.status in {200, 202, 204}
    ensures r.Ok? ==> r.value == reply.resp.status
    ensures reply.Answer? && reply.resp.status !in {200, 202, 204} ==> r == Err(RuntimeError)
  {
    match reply
    case Broken => Err(TransportError)
    case Answer(resp, _) =>
      if resp.status in {200, 202, 204} then Ok(resp.status) else Err(RuntimeError)
  }
}
