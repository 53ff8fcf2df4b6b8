/** GitHub Packages maintenance of `src/providers/github/packages.py`: list
    the packages of an organisation or user, delete a package or some of its
    versions, and the pure steps of the interactive flow that pick packages
    by index and read version ids.

    Each request is answered by one `Reply`, the outcome of the
    `http_client.get` or `http_client.delete` wrapper.
 */
module Packages {
  import opened Outcome
  import opened Json
  import opened Http
  import Text
  import Api

  /** The package types GitHub knows. */
  const SupportedTypes: set<string> := {"container", "npm", "maven", "rubygems", "nuget"}

  /** `(pkg_type or "container").strip().lower()`: the type as the delete
      helpers write it into the URL, not checked against the known types.
      (`"container"` is already stripped and lower-case.) */
  function TypeSegment(pkgType: string): (seg: string)
    ensures pkgType == [] ==> seg == "container"
    ensures pkgType != [] ==> |seg| == |Text.Strip(pkgType)|
    ensures pkgType != [] ==> forall i | 0 <= i < |seg| :: seg[i] == Text.LowerChar(Text.Strip(pkgType)[i])
  {
    if pkgType == [] then "container" else Text.Lower(Text.Strip(pkgType))
  }

  /** The type `_list_packages` queries: the normalised type when GitHub
      knows it, `container` otherwise. */
  function ListType(pkgType: string): (t: string)
    ensures t in SupportedTypes
    ensures TypeSegment(pkgType) in SupportedTypes ==> t == TypeSegment(pkgType)
    ensures TypeSegment(pkgType) !in SupportedTypes ==> t == "container"
  {
    var t := TypeSegment(pkgType);
    if t in SupportedTypes then t else "container"
  }

  /** The delete helpers trim and lower-case the type but never fall back
      to `container`: a type GitHub does not know is listed as a container
      yet deleted under its own name, so the two URLs differ. */
  lemma DeleteTypeNotDefaulted(typ: string, name: string, t: string, n: string)
    requires TypeSegment(t) !in SupportedTypes
    ensures ListType(t) == "container"
    ensures PackageUrl(typ, name, t, n) != PackageUrl(typ, name, ListType(t), n)
  {
    SupportedTypesAreNormal("container");
    SegmentsDiffer(ListUrl(typ, name) + "/", TypeSegment(t), "container", n);
  }

  /** Two package URLs with different type segments differ. */
  lemma SegmentsDiffer(l: string, x: string, y: string, n: string)
    requires x != y
    ensures l + (x + "/" + n) != l + (y + "/" + n)
  {
    var a := x + "/" + n;
    var b := y + "/" + n;
    assert (l + a)[|l|..] == a && (l + b)[|l|..] == b;
    assert a != b by {
      if |x| == |y| {
        assert a[..|x|] == x && b[..|y|] == y;
      }
    }
  }

  /** A type that is all blank but not empty is truthy, so it is not
      replaced by `container`: it strips to an empty path segment, while the
      listing falls back to `container`. */
  lemma BlankTypeEmptySegment(t: string)
    requires t != [] && Text.Strip(t) == []
    ensures TypeSegment(t) == []
    ensures ListType(t) == "container"
  {
  }

  /** Lower-case ASCII letters only. */
  predicate AllLowerAscii(t: string) {
    forall i | 0 <= i < |t| :: 'a' <= t[i] <= 'z'
  }

  /** A word of lower-case ASCII letters is its own `strip().lower()`. */
  lemma LowerAsciiIsNormal(t: string)
    requires t != [] && AllLowerAscii(t)
    ensures Text.Lower(Text.Strip(t)) == t
  {
    assert 'a' <= t[0] <= 'z' && 'a' <= t[|t| - 1] <= 'z';
    assert Text.Unpadded(t);
    Text.StripKeepsTrimmed(t);
    LowerOfLowerAscii(t);
  }

  lemma LowerOfLowerAscii(t: string)
    requires AllLowerAscii(t)
    ensures Text.Lower(t) == t
  {
    assert forall i | 0 <= i < |t| :: Text.Lower(t)[i] == t[i];
  }

  /** A known type is already normalised. */
  lemma SupportedTypesAreNormal(t: string)
    requires t in SupportedTypes
    ensures TypeSegment(t) == t
  {
    assert AllLowerAscii(t) && t != [] by {
      assert t == "container" || t == "npm" || t == "maven" || t == "rubygems" || t == "nuget";
    }
    LowerAsciiIsNormal(t);
  }

  /** Normalising the listing type twice changes nothing. */
  lemma ListTypeIdempotent(pkgType: string)
    ensures ListType(ListType(pkgType)) == ListType(pkgType)
  {
    SupportedTypesAreNormal(ListType(pkgType));
  }

  /** The path segment of a scope: `orgs` for an organisation, `users` for
      anything else. */
  function ScopeSegment(typ: string): (seg: string)
    ensures typ == "org" <==> seg == "orgs"
    ensures typ != "org" <==> seg == "users"
  {
    if typ == "org" then "orgs" else "users"
  }

  /** The root of a scope: `/orgs` or `/users` under the API root. */
  function ScopeUrl(typ: string): string {
    GithubApi + "/" + ScopeSegment(typ)
  }

  /** The packages collection of a scope. */
  function ListUrl(typ: string, name: string): string {
    ScopeUrl(typ) + ("/" + name + "/packages")
  }

  /** Two strings that continue a common prefix differently are not
      prefixes of each other. */
  lemma Diverge(p: string, a: string, b: string)
    requires a != [] && b != [] && a[0] != b[0]
    ensures !(p + a <= p + b)
  {
    assert (p + a)[|p|] == a[0] && (p + b)[|p|] == b[0];
  }

  /** The query `_list_packages` sends: the listing type and a page of 100. */
  function ListQuery(pkgType: string): (q: map<string, Json>)
    ensures q.Keys == {"package_type", "per_page"}
    ensures q["package_type"] == Str(ListType(pkgType)) && q["per_page"] == Int(100)
  {
    map["package_type" := Str(ListType(pkgType)), "per_page" := Int(100)]
  }

  /** `_list_packages`: one request; a failure status, a body that is not
      JSON, or a body that is not an array raises; otherwise the object
      elements in order. */
  function ListPackages(reply: Reply): (r: Result<seq<Json>>)
    ensures reply.Broken? ==> r == Err(TransportError)
    ensures reply.Answer? && 400 <= reply.resp.status < 600 ==> r == Err(HttpStatusError(reply.resp.status))
    ensures reply.Answer? && !(400 <= reply.resp.status < 600) && reply.resp.body.None? ==> r == Err(BadJson)
    ensures (reply.Answer? && !(400 <= reply.resp.status < 600) && reply.resp.body.Some?
             && !reply.resp.body.value.Arr?) ==> r == Err(RuntimeError)
    ensures (reply.Answer? && !(400 <= reply.resp.status < 600) && reply.resp.body.Some?
             && reply.resp.body.value.Arr?) ==> r == Ok(Api.OnlyDicts(reply.resp.body.value.items))
  {
    match reply
    case Broken => Err(TransportError)
    case Answer(resp, _) =>
      if 400 <= resp.status < 600 then Err(HttpStatusError(resp.status))
      else if resp.body.None? then Err(BadJson)
      else if !resp.body.value.Arr? then Err(RuntimeError)
      else Ok(Api.OnlyDicts(resp.body.value.items))
  }

  /** The listing keeps exactly the objects of the array, in order. */
  lemma ListPackagesKeepsObjects(resp: Response, at: int, a: seq<Json>, b: seq<Json>)
    requires !(400 <= resp.status < 600) && resp.body == Some(Arr(a + b))
    ensures ListPackages(Answer(resp, at)) == Ok(Api.OnlyDicts(a) + Api.OnlyDicts(b))
  {
    Api.OnlyDictsAppend(a, b);
  }

  /** A string continued by more text starts with it. */
  lemma PrefixOfConcat(p: string, q: string, r: string)
    ensures p + q <= p + (q + r)
  {
    assert (p + (q + r))[..|p + q|] == p + q;
  }

  /** Eight spaces: the indentation a backslash-newline inside an f-string
      carries into the string. */
  const Indent8: string := "        "

  /** The URL `_delete_package` sends, as written: the line continuation
      inside the f-string keeps the next line's indentation after the scope
      segment. */
  function PackageUrlAsWritten(typ: string, name: string, pkgType: string, pkgName: string): (u: string)
    ensures ScopeUrl(typ) + Indent8 <= u
  {
    var p := ScopeUrl(typ);
    var tail := "/" + name + "/packages/" + TypeSegment(pkgType) + "/" + pkgName;
    PrefixOfConcat(p, Indent8, tail);
    p + (Indent8 + tail)
  }

  /** The URL of a package: `/{orgs|users}/{name}/packages/{type}/{package}`,
      inside the collection `_list_packages` reads. */
  function PackageUrl(typ: string, name: string, pkgType: string, pkgName: string): (u: string)
    ensures ListUrl(typ, name) + "/" <= u
  {
    var l := ListUrl(typ, name) + "/";
    var u := l + (TypeSegment(pkgType) + "/" + pkgName);
    assert u[..|l|] == l;
    u
  }

  /** The URL as written leaves the collection of the scope: where the
      collection continues with `/{name}`, it holds a space. */
  lemma PackageUrlAsWrittenLeavesScope(typ: string, name: string, pkgType: string, pkgName: string)
    ensures !(ListUrl(typ, name) <= PackageUrlAsWritten(typ, name, pkgType, pkgName))
    ensures PackageUrlAsWritten(typ, name, pkgType, pkgName) != PackageUrl(typ, name, pkgType, pkgName)
  {
    Diverge(ScopeUrl(typ), "/" + name + "/packages",
            Indent8 + ("/" + name + "/packages/" + TypeSegment(pkgType) + "/" + pkgName));
  }

  /** The collection of versions of a package as written in
      `_delete_package_versions`, with the same stray indentation. */
  function VersionsUrlAsWritten(typ: string, name: string, pkgType: string, pkgName: string): (u: string)
    ensures ScopeUrl(typ) + Indent8 <= u
  {
    var p := ScopeUrl(typ);
    var tail := "/" + name + "/packages/" + TypeSegment(pkgType) + "/" + pkgName + "/versions";
    PrefixOfConcat(p, Indent8, tail);
    p + (Indent8 + tail)
  }

  /** The collection of versions of a package, inside the package. */
  function VersionsUrl(typ: string, name: string, pkgType: string, pkgName: string): (u: string)
    ensures PackageUrl(typ, name, pkgType, pkgName) + "/" <= u
  {
    var l := PackageUrl(typ, name, pkgType, pkgName) + "/";
    var u := l + "versions";
    assert u[..|l|] == l;
    u
  }

  lemma VersionsUrlAsWrittenLeavesScope(typ: string, name: string, pkgType: string, pkgName: string)
    ensures !(ListUrl(typ, name) <= VersionsUrlAsWritten(typ, name, pkgType, pkgName))
  {
    Diverge(ScopeUrl(typ), "/" + name + "/packages",
            Indent8 + ("/" + name + "/packages/" + TypeSegment(pkgType) + "/" + pkgName + "/versions"));
  }

  /** Twenty spaces: the indentation carried into the versions listing URL of
      the interactive flow. */
  const Indent20: string := "                    "

  /** The versions listing URL of the interactive flow, as written. */
  function ListVersionsUrlAsWritten(typ: string, name: string, listType: string, pkgName: string): (u: string)
    ensures ScopeUrl(typ) + Indent20 <= u
  {
    var p := ScopeUrl(typ);
    var tail := "/" + name + "/packages/" + listType + "/" + pkgName + "/versions";
    PrefixOfConcat(p, Indent20, tail);
    p + (Indent20 + tail)
  }

  /** The versions listing URL of the interactive flow: for a known type it
      is the collection the versions are deleted from. */
  function ListVersionsUrl(typ: string, name: string, listType: string, pkgName: string): (u: string)
    requires listType in SupportedTypes
    ensures u == VersionsUrl(typ, name, listType, pkgName)
  {
    SupportedTypesAreNormal(listType);
    VersionsPath(ListUrl(typ, name), listType, pkgName);
    ListUrl(typ, name) + "/" + listType + "/" + pkgName + "/versions"
  }

  /** The versions path spelled in one piece is the package URL followed
      by `/versions`. */
  lemma VersionsPath(l: string, t: string, n: string)
    ensures l + "/" + t + "/" + n + "/versions" == (l + "/") + (t + "/" + n) + "/" + "versions"
  {
    assert "/versions" == "/" + "versions";
  }

  lemma ListVersionsUrlAsWrittenLeavesScope(typ: string, name: string, listType: string, pkgName: string)
    ensures !(ListUrl(typ, name) <= ListVersionsUrlAsWritten(typ, name, listType, pkgName))
  {
    Diverge(ScopeUrl(typ), "/" + name + "/packages",
            Indent20 + ("/" + name + "/packages/" + listType + "/" + pkgName + "/versions"));
  }

  /** `_delete_package`: one DELETE; the status is returned when it is 200,
      202 or 204, and anything else raises `RuntimeError`. */
  function DeletePackage(reply: Reply): (r: Result<int>)
    ensures r.Ok? <==> reply.Answer? && reply.resp.status in {200, 202, 204}
    ensures r.Ok? ==> r.value == reply.resp.status
    ensures reply.Answer? && reply.resp.status !in {200, 202, 204} ==> r == Err(RuntimeError)
    ensures reply.Broken? ==> r == Err(TransportError)
  {
    match reply
    case Broken => Err(TransportError)
    case Answer(resp, _) =>
      if resp.status in {200, 202, 204} then Ok(resp.status) else Err(RuntimeError)
  }

  /** One package the "delete all" choice tried, with how its delete ended. */
  datatype Attempt = Attempt(name: string, outcome: Result<int>)

  /** The "delete all" choice of the interactive flow: each listed package
      is deleted by its `name` in listing order, and a failed delete is
      logged and the loop goes on. Only a package without a `name`, read
      outside the `try`, raises `KeyError` and stops the loop. */
  function DeleteAll(packages: seq<Json>, dels: seq<Reply>): (r: (seq<Attempt>, Option<Error>))
    ensures |r.0| <= |packages| && |r.0| <= |dels|
    ensures forall i | 0 <= i < |r.0| ::
              Get(packages[i], "name").Some? && r.0[i] == Attempt(PyStr(Get(packages[i], "name").value), DeletePackage(dels[i]))
    ensures r.1.None? ==> |r.0| == |packages|
    ensures r.1.Some? ==> r.1.value in {KeyError, NoReply}
    ensures r.1 == Some(KeyError) ==> |r.0| < |packages| && Get(packages[|r.0|], "name").None?
    decreases |packages|
  {
    if packages == [] then ([], None)
    else if Get(packages[0], "name").None? then ([], Some(KeyError))
    else if dels == [] then ([], Some(NoReply))
    else
      var rest := DeleteAll(packages[1..], dels[1..]);
      assert forall i | 0 <= i < |rest.0| :: packages[1..][i] == packages[i + 1] && dels[1..][i] == dels[i + 1];
      var attempts := [Attempt(PyStr(Get(packages[0], "name").value), DeletePackage(dels[0]))] + rest.0;
      assert forall i | 1 <= i < |attempts| :: attempts[i] == rest.0[i - 1];
      (attempts, rest.1)
  }

  /** A failed delete never stops the later ones: when every package has a
      name and each gets a reply, each is tried exactly once, whatever the
      replies say. */
  lemma {:induction false} DeleteAllBestEffort(packages: seq<Json>, dels: seq<Reply>)
    requires |dels| >= |packages|
    requires forall i | 0 <= i < |packages| :: Get(packages[i], "name").Some?
    ensures DeleteAll(packages, dels).1.None?
    ensures |DeleteAll(packages, dels).0| == |packages|
    decreases |packages|
  {
    if packages != [] {
      assert forall i | 0 <= i < |packages| - 1 :: packages[1..][i] == packages[i + 1];
      DeleteAllBestEffort(packages[1..], dels[1..]);
    }
  }

  /** What `_delete_package_versions` did: the versions deleted, in order,
      and the exception raised, if any. Each version costs one reply. */
  datatype VersionDeletes = VersionDeletes(deleted: seq<Json>, failure: Option<Error>)

  /** `_delete_package_versions`: an empty list sends nothing; otherwise the
      versions are deleted in order at `{versions}/{id}` and the first
      failure raises, leaving the earlier deletions in place. */
  function DeleteVersions(ids: seq<Json>, dels: seq<Reply>): (d: VersionDeletes)
    ensures d.deleted <= ids
    ensures |d.deleted| <= |dels|
    ensures forall i | 0 <= i < |d.deleted| :: DeletePackage(dels[i]).Ok?
    ensures d.failure.None? <==> d.deleted == ids
    ensures d.failure == Some(NoReply) ==> |d.deleted| == |dels| < |ids|
    ensures d.failure.Some? && d.failure != Some(NoReply) ==>
              |d.deleted| < |dels| && DeletePackage(dels[|d.deleted|]) == Err(d.failure.value)
    decreases |ids|
  {
    if ids == [] then VersionDeletes([], None)
    else if dels == [] then VersionDeletes([], Some(NoReply))
    else
      var r := DeletePackage(dels[0]);
      if r.Err? then VersionDeletes([], Some(r.error))
      else
        var rest := DeleteVersions(ids[1..], dels[1..]);
        assert forall i | 0 <= i < |rest.deleted| :: dels[1..][i] == dels[i + 1];
        assert rest.deleted <= ids[1..] ==> [ids[0]] + rest.deleted <= ids;
        VersionDeletes([ids[0]] + rest.deleted, rest.failure)
  }

  /** The corrected URL of one version of a package: its versions
      collection, a slash, then `str(id)`; it lies inside the package and
      so inside the collection of the scope. */
  function VersionUrl(typ: string, name: string, pkgType: string, pkgName: string, id: Json): (u: string)
    ensures VersionsUrl(typ, name, pkgType, pkgName) + "/" <= u
    ensures ListUrl(typ, name) + "/" <= u
  {
    var base := VersionsUrl(typ, name, pkgType, pkgName) + "/";
    PrefixOfConcat(VersionsUrl(typ, name, pkgType, pkgName), "/", PyStr(id));
    PrefixChain(ListUrl(typ, name) + "/", PackageUrl(typ, name, pkgType, pkgName),
                VersionsUrl(typ, name, pkgType, pkgName), base + PyStr(id));
    base + PyStr(id)
  }

  /** The URL `_delete_package_versions` sends for one version, as written:
      the versions collection with its stray indentation, a slash, then
      `str(id)`. Like the collection, it is not inside the collection of
      the scope. */
  function VersionUrlAsWritten(typ: string, name: string, pkgType: string, pkgName: string, id: Json): (u: string)
    ensures VersionsUrlAsWritten(typ, name, pkgType, pkgName) + "/" <= u
    ensures !(ListUrl(typ, name) <= u)
  {
    var base := VersionsUrlAsWritten(typ, name, pkgType, pkgName);
    PrefixOfConcat(base, "/", PyStr(id));
    VersionsUrlAsWrittenLeavesScope(typ, name, pkgType, pkgName);
    PrefixOfLonger(ListUrl(typ, name), base, base + "/" + PyStr(id));
    base + "/" + PyStr(id)
  }

  /** Prefixes compose. */
  lemma PrefixChain(a: string, b: string, c: string, d: string)
    requires a <= b && b <= c && c <= d
    ensures a <= d
  {
  }

  /** Two prefixes of one string: the shorter is a prefix of the longer. */
  lemma PrefixOfLonger(a: string, b: string, c: string)
    requires |a| <= |b| && b <= c
    ensures a <= c ==> a <= b
  {
    if a <= c {
      assert a == c[..|a|] && b == c[..|b|];
      assert b[..|a|] == a;
    }
  }

  /** The URLs `_delete_package_versions` deleted, one per deleted version,
      as written: none of them is inside the collection of the scope. */
  function DeletedVersionUrlsAsWritten(typ: string, name: string, pkgType: string, pkgName: string, d: VersionDeletes): (urls: seq<string>)
    ensures |urls| == |d.deleted|
    ensures forall i | 0 <= i < |urls| :: urls[i] == VersionUrlAsWritten(typ, name, pkgType, pkgName, d.deleted[i])
    ensures forall i | 0 <= i < |urls| :: !(ListUrl(typ, name) <= urls[i])
  {
    seq(|d.deleted|, i requires 0 <= i < |d.deleted| => VersionUrlAsWritten(typ, name, pkgType, pkgName, d.deleted[i]))
  }

  /** The URLs the corrected helper deletes, one per deleted version, each
      inside the collection of the scope. */
  function DeletedVersionUrls(typ: string, name: string, pkgType: string, pkgName: string, d: VersionDeletes): (urls: seq<string>)
    ensures |urls| == |d.deleted|
    ensures forall i | 0 <= i < |urls| :: urls[i] == VersionUrl(typ, name, pkgType, pkgName, d.deleted[i])
    ensures forall i | 0 <= i < |urls| :: ListUrl(typ, name) + "/" <= urls[i]
  {
    seq(|d.deleted|, i requires 0 <= i < |d.deleted| => VersionUrl(typ, name, pkgType, pkgName, d.deleted[i]))
  }

  /** Every URL the code as written sends differs from the one the
      corrected helper would send for the same version. */
  lemma DeletedVersionUrlsDiffer(typ: string, name: string, pkgType: string, pkgName: string, d: VersionDeletes, i: int)
    requires 0 <= i < |d.deleted|
    ensures DeletedVersionUrlsAsWritten(typ, name, pkgType, pkgName, d)[i] != DeletedVersionUrls(typ, name, pkgType, pkgName, d)[i]
  {
    var u := DeletedVersionUrls(typ, name, pkgType, pkgName, d)[i];
    PrefixOfConcat(ListUrl(typ, name), "/", u[|ListUrl(typ, name)| + 1..]);
    assert ListUrl(typ, name) <= u by {
      assert u[..|ListUrl(typ, name)|] == ListUrl(typ, name);
    }
  }

  /** With a success for every version, all of them are deleted. */
  lemma {:induction false} DeleteVersionsAllSucceed(ids: seq<Json>, dels: seq<Reply>)
    requires |dels| >= |ids|
    requires forall i | 0 <= i < |dels| :: DeletePackage(dels[i]).Ok?
    ensures DeleteVersions(ids, dels) == VersionDeletes(ids, None)
    decreases |ids|
  {
    if ids != [] {
      DeleteVersionsAllSucceed(ids[1..], dels[1..]);
      assert [ids[0]] + ids[1..] == ids;
    }
  }

  /** A failure answering the `m`-th delete leaves exactly the `m - 1`
      versions before it deleted. */
  lemma {:induction false} DeleteVersionsStopsAtFailure(ids: seq<Json>, dels: seq<Reply>, m: nat)
    requires 1 <= m <= |ids| && m <= |dels|
    requires forall i | 0 <= i < m - 1 :: DeletePackage(dels[i]).Ok?
    requires DeletePackage(dels[m - 1]).Err?
    ensures DeleteVersions(ids, dels) == VersionDeletes(ids[..m - 1], Some(DeletePackage(dels[m - 1]).error))
    decreases m
  {
    if m > 1 {
      DeleteVersionsStopsAtFailure(ids[1..], dels[1..], m - 1);
      assert [ids[0]] + ids[1..][..m - 2] == ids[..m - 1];
    }
  }

  /** The id of one listed version: an integer id as it is (a JSON boolean
      is an `int` in Python too), a numeric string read with `int()`, and
      nothing for anything else. */
  function VersionId(v: Json): (id: Option<Json>)
    ensures id.Some? ==> id.value.Int? || id.value.Bool?
    ensures Get(v, "id").Some? && Get(v, "id").value.Int? ==> id == Get(v, "id")
    ensures Get(v, "id").Some? && Get(v, "id").value.Str? ==>
              id == (match Text.ParseInt(Get(v, "id").value.s) case Some(n) => Some(Int(n)) case None => None)
    ensures Get(v, "id").Some? && Get(v, "id").value.Bool? ==> id == Get(v, "id")
    ensures Get(v, "id").Some? && !(Get(v, "id").value.Int? || Get(v, "id").value.Bool? || Get(v, "id").value.Str?) ==> id.None?
    ensures Get(v, "id").None? ==> id.None?
  {
    match Get(v, "id")
    case Some(Int(n)) => Some(Int(n))
    case Some(Bool(b)) => Some(Bool(b))
    case Some(Str(s)) =>
      (match Text.ParseInt(s) case Some(n) => Some(Int(n)) case None => None)
    case _ => None
  }

  /** The version ids of a listing, in order. */
  function ExtractVersionIds(versions: seq<Json>): (ids: seq<Json>)
    ensures |ids| <= |versions|
    ensures forall i | 0 <= i < |ids| :: ids[i].Int? || ids[i].Bool?
  {
    if versions == [] then []
    else
      var rest := ExtractVersionIds(versions[1..]);
      match VersionId(versions[0])
      case None => rest
      case Some(id) => [id] + rest
  }

  lemma {:induction false} ExtractVersionIdsAppend(a: seq<Json>, b: seq<Json>)
    ensures ExtractVersionIds(a + b) == ExtractVersionIds(a) + ExtractVersionIds(b)
    decreases |a|
  {
    if a == [] {
      assert a + b == b;
    } else {
      assert (a + b)[0] == a[0];
      assert (a + b)[1..] == a[1..] + b;
      ExtractVersionIdsAppend(a[1..], b);
    }
  }

  /** Every listed version whose id is an integer contributes exactly that id. */
  lemma {:induction false} ExtractVersionIdsOfIntegers(versions: seq<Json>, ns: seq<int>)
    requires |versions| == |ns|
    requires forall i | 0 <= i < |versions| :: Get(versions[i], "id") == Some(Int(ns[i]))
    ensures ExtractVersionIds(versions) == seq(|ns|, i requires 0 <= i < |ns| => Int(ns[i]))
    decreases |versions|
  {
    if versions != [] {
      ExtractVersionIdsOfIntegers(versions[1..], ns[1..]);
    }
  }

  /** A token `int()` cannot read. */
  predicate BadToken(tok: string) {
    !Text.IsBlank(tok) && Text.ParseInt(tok).None?
  }

  /** The selection step over the comma-separated tokens: blank tokens are
      skipped, a token `int()` cannot read raises `ValueError`, and an index
      outside `1..count` is dropped. Returned positions are 0-based. A token
      is blank exactly when its `strip()` is empty, and `int()` reads the
      token as it reads its `strip()`. */
  function SelectParts(parts: seq<string>, count: nat): (r: Result<seq<int>>)
    ensures r.Ok? ==> forall i | 0 <= i < |r.value| :: 0 <= r.value[i] < count
    ensures r.Err? ==> r.error == ValueError
  {
    if parts == [] then Ok([])
    else
      var rest := SelectParts(parts[1..], count);
      PickInRange(Text.IsBlank(parts[0]), Text.ParseInt(parts[0]), count, rest);
      Pick(Text.IsBlank(parts[0]), Text.ParseInt(parts[0]), count, rest)
  }

  /** One turn of the loop, for a token that is `blank` or that `int()`
      reads as `v`: what it makes of the selection `rest` of the tokens
      after it. */
  function Pick(blank: bool, v: Option<int>, count: nat, rest: Result<seq<int>>): Result<seq<int>> {
    if blank then rest
    else if v.None? then Err(ValueError)
    else if rest.Err? then rest
    else if 0 <= v.value - 1 < count then Ok([v.value - 1] + rest.value)
    else rest
  }

  /** A turn adds only a position inside the list, and its only error is a
      `ValueError`. */
  lemma PickInRange(blank: bool, v: Option<int>, count: nat, rest: Result<seq<int>>)
    requires rest.Ok? ==> forall i | 0 <= i < |rest.value| :: 0 <= rest.value[i] < count
    requires rest.Err? ==> rest.error == ValueError
    ensures var r := Pick(blank, v, count, rest);
            (r.Ok? ==> forall i | 0 <= i < |r.value| :: 0 <= r.value[i] < count)
            && (r.Err? ==> r.error == ValueError)
  {
  }

  /** A turn that succeeds leaves the later selection in place behind it. */
  lemma PickKeeps(blank: bool, v: Option<int>, count: nat, rest: Result<seq<int>>)
    requires Pick(blank, v, count, rest).Ok?
    ensures rest.Ok?
    ensures forall x | x in rest.value :: x in Pick(blank, v, count, rest).value
  {
  }

  /** A position the later tokens did not select comes from the token of
      this turn, which is not blank and reads as one above it. */
  lemma PickSound(blank: bool, v: Option<int>, count: nat, rest: Result<seq<int>>, x: int)
    requires Pick(blank, v, count, rest).Ok? && x in Pick(blank, v, count, rest).value
    requires !(rest.Ok? && x in rest.value)
    ensures !blank && v == Some(x + 1)
  {
    if !blank && v.Some? && rest.Ok? && 0 <= v.value - 1 < count {
      assert x in [v.value - 1] + rest.value;
    }
  }

  /** Some token cannot be read. */
  predicate AnyBadToken(parts: seq<string>) {
    exists i | 0 <= i < |parts| :: BadToken(parts[i])
  }

  lemma AnyBadTokenCons(parts: seq<string>)
    requires parts != []
    ensures AnyBadToken(parts) <==> BadToken(parts[0]) || AnyBadToken(parts[1..])
  {
    assert forall i | 0 <= i < |parts| - 1 :: parts[1..][i] == parts[i + 1];
    if AnyBadToken(parts) && !BadToken(parts[0]) {
      var i :| 0 <= i < |parts| && BadToken(parts[i]);
      assert i > 0 && BadToken(parts[1..][i - 1]);
    }
  }

  /** The selection fails exactly when some token cannot be read. */
  lemma {:induction false} SelectPartsFails(parts: seq<string>, count: nat)
    ensures SelectParts(parts, count).Err? <==> AnyBadToken(parts)
    decreases |parts|
  {
    if parts != [] {
      SelectPartsFails(parts[1..], count);
      AnyBadTokenCons(parts);
    }
  }

  /** The index selection of the interactive flow: `raw` is the stripped
      answer, split on commas. */
  function SelectIndices(raw: string, count: nat): (r: Result<seq<int>>)
    ensures r.Ok? ==> forall i | 0 <= i < |r.value| :: 0 <= r.value[i] < count
    ensures r.Err? ==> r.error == ValueError
  {
    SelectParts(Text.Split(raw, ','), count)
  }

  /** A selection keeps everything its later tokens select. */
  lemma SelectPartsKeepsTail(parts: seq<string>, count: nat)
    requires parts != [] && SelectParts(parts, count).Ok?
    ensures SelectParts(parts[1..], count).Ok?
    ensures forall x | x in SelectParts(parts[1..], count).value :: x in SelectParts(parts, count).value
  {
    PickKeeps(Text.IsBlank(parts[0]), Text.ParseInt(parts[0]), count, SelectParts(parts[1..], count));
  }

  /** A leading token that writes an index in range selects it first. */
  lemma SelectPartsHead(parts: seq<string>, count: nat, n: int)
    requires parts != [] && parts[0] == Text.DecimalString(n) && 1 <= n <= count
    requires SelectParts(parts[1..], count).Ok?
    ensures SelectParts(parts, count) == Ok([n - 1] + SelectParts(parts[1..], count).value)
  {
    Text.ParseDecimalString(n);
    Text.DecimalStringTrimmed(n);
    assert !Text.IsBlank(parts[0]);
  }

  /** A token naming a package in range selects it. */
  lemma {:induction false} SelectPartsKeepsInRange(parts: seq<string>, count: nat, n: int)
    requires SelectParts(parts, count).Ok?
    requires Text.DecimalString(n) in parts && 1 <= n <= count
    ensures n - 1 in SelectParts(parts, count).value
    decreases |parts|
  {
    SelectPartsKeepsTail(parts, count);
    if parts[0] != Text.DecimalString(n) {
      assert Text.DecimalString(n) in parts[1..];
      SelectPartsKeepsInRange(parts[1..], count, n);
    } else {
      SelectPartsHead(parts, count, n);
    }
  }

  /** A leading token that writes an index out of range is dropped. */
  lemma SelectPartsOutOfRange(parts: seq<string>, count: nat, n: int)
    requires parts != [] && parts[0] == Text.DecimalString(n) && !(1 <= n <= count)
    ensures SelectParts(parts, count) == SelectParts(parts[1..], count)
  {
    Text.ParseDecimalString(n);
    Text.DecimalStringTrimmed(n);
    assert !Text.IsBlank(parts[0]);
  }

  /** A blank token selects nothing: the selection goes on with the rest. */
  lemma SelectPartsSkipsBlank(parts: seq<string>, count: nat)
    requires parts != [] && Text.IsBlank(parts[0])
    ensures SelectParts(parts, count) == SelectParts(parts[1..], count)
  {
  }

  /** A non-blank token that `int()` reads as the index one above `x`. */
  predicate NamesIndex(tok: string, x: int) {
    !Text.IsBlank(tok) && Text.ParseInt(tok) == Some(x + 1)
  }

  /** Every selected position comes from a non-blank token that `int()`
      reads as the index one above it, within `1..count`. */
  lemma {:induction false} SelectPartsSound(parts: seq<string>, count: nat, x: int)
    requires SelectParts(parts, count).Ok? && x in SelectParts(parts, count).value
    ensures 0 <= x < count
    ensures exists i | 0 <= i < |parts| :: NamesIndex(parts[i], x)
    decreases |parts|
  {
    if parts != [] {
      var rest := SelectParts(parts[1..], count);
      if rest.Ok? && x in rest.value {
        SelectPartsSound(parts[1..], count, x);
        var i :| 0 <= i < |parts[1..]| && NamesIndex(parts[1..][i], x);
        assert parts[i + 1] == parts[1..][i];
      } else {
        PickSound(Text.IsBlank(parts[0]), Text.ParseInt(parts[0]), count, rest, x);
        assert NamesIndex(parts[0], x);
      }
    }
  }

  /** The selected packages, in the order the indices were given. */
  function Selected(packages: seq<Json>, idx: seq<int>): (r: seq<Json>)
    requires forall i | 0 <= i < |idx| :: 0 <= idx[i] < |packages|
    ensures |r| == |idx|
    ensures forall i | 0 <= i < |idx| :: r[i] == packages[idx[i]]
  {
    seq(|idx|, i requires 0 <= i < |idx| => packages[idx[i]])
  }
}
