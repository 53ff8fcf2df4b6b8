/** `delete_all_actions_cache` of `src/providers/github/cache.py`: every
    GitHub Actions cache entry of the repository is listed and deleted by id.
 */
module Cache {
  import opened Outcome
  import opened Json
  import opened Http
  import Cleanup
  import Api
  import Text

  /** The Actions cache collection of `owner/repo`. */
  function CachesUrl(owner: string, repo: string): string {
    GithubApi + "/repos/" + owner + "/" + repo + "/actions/caches"
  }

  /** `delete_all_actions_cache(owner, repo)` for an already resolved
      repository: list the cache entries and delete each one at
      `.../actions/caches/{id}`. */
  function DeleteAllActionsCache(owner: string, repo: string, gets: seq<Reply>, dels: seq<Reply>): (s: Cleanup.Sweep)
    ensures s.pages <= |gets|
    ensures forall u | u in s.deleted :: CachesUrl(owner, repo) + "/" <= u
  {
    Cleanup.Run(CachesUrl(owner, repo), map[], gets, dels)
  }

  /** An object page whose entries sit under a key `paginate` does not know
      (`actions_caches`) is read through its first array member; two entries
      make one listing request and two deletes. */
  lemma TwoEntriesTwoDeletes(owner: string, repo: string, t: int, next: seq<Reply>)
    ensures var xs := [Obj([("id", Int(1)), ("key", Str("k1"))]), Obj([("id", Int(2)), ("key", Str("k2"))])];
            var ok := Response(200, map[], "", Some(Obj([("actions_caches", Arr(xs))])));
            var gone := Answer(Response(204, map[], "", None), t);
            var base := CachesUrl(owner, repo);
            DeleteAllActionsCache(owner, repo, [Answer(ok, t)] + next, [gone, gone])
              == Cleanup.Sweep([base + "/" + "1", base + "/" + "2"], 1, None)
  {
    var xs := [Obj([("id", Int(1)), ("key", Str("k1"))]), Obj([("id", Int(2)), ("key", Str("k2"))])];
    var fields := [("actions_caches", Arr(xs))];
    var ok := Response(200, map[], "", Some(Obj(fields)));
    var gone := Answer(Response(204, map[], "", None), t);
    var base := CachesUrl(owner, repo);
    Api.OnlyDictsKeepsObjects(xs);
    assert Lookup(fields, "workflow_runs").None? && Lookup(fields, "caches").None?;
    assert Api.FirstList(fields) == Some(xs);
    assert Api.ReadPage(Answer(ok, t), None) == Ok(xs);
    assert Api.ReadPages([Answer(ok, t)] + next, None)[0] == Ok(xs);
    assert xs[0].fields[1..] == [("key", Str("k1"))] && xs[1].fields[1..] == [("key", Str("k2"))];
    assert Lookup(xs[0].fields[1..], "id") == None && Lookup(xs[1].fields[1..], "id") == None;
    assert GetPresent(xs[0], "id") == Some(Int(1)) && GetPresent(xs[1], "id") == Some(Int(2));
    assert PyStr(Int(1)) == "1" && PyStr(Int(2)) == "2";
    Cleanup.DeleteTwoTargets(base, xs[0], xs[1], base + "/" + "1", base + "/" + "2", gone, gone);
  }

  /** The cache entries deleted are a prefix of the listed entries that
      carry an id, in listing order; when every delete succeeds all of them
      are deleted, one per listed cache entry with an id, and the outcome is the
      listing's own. */
  lemma DeletesListedWithId(owner: string, repo: string, gets: seq<Reply>, dels: seq<Reply>)
    ensures var s := DeleteAllActionsCache(owner, repo, gets, dels);
            s.deleted <= Cleanup.Targets(CachesUrl(owner, repo), Api.Paginate(map[], None, gets).items)
    ensures var s := DeleteAllActionsCache(owner, repo, gets, dels);
            var items := Api.Paginate(map[], None, gets).items;
            var n := Cleanup.CountWithId(items);
            (|dels| >= n && forall i | 0 <= i < |dels| :: Api.GhDelete(dels[i]).Ok?)
            ==> s.deleted == Cleanup.Targets(CachesUrl(owner, repo), items)
                && |s.deleted| == n && s.failure == Api.Paginate(map[], None, gets).failure
  {
    Cleanup.RunMatchesListing(CachesUrl(owner, repo), map[], gets, dels);
    Cleanup.TargetsCount(CachesUrl(owner, repo), Api.Paginate(map[], None, gets).items);
  }

  /** The first failed delete, the `m + 1`-th, is re-raised after exactly the
      first `m` deletions, and no later cache entry is tried. */
  lemma StopsAtFailedDelete(owner: string, repo: string, gets: seq<Reply>, dels: seq<Reply>, m: nat)
    requires m < |Cleanup.Targets(CachesUrl(owner, repo), Api.Paginate(map[], None, gets).items)| && m < |dels|
    requires Cleanup.Succeed(dels, m) && Api.GhDelete(dels[m]).Err?
    ensures var s := DeleteAllActionsCache(owner, repo, gets, dels);
            s.deleted == Cleanup.Targets(CachesUrl(owner, repo), Api.Paginate(map[], None, gets).items)[..m]
            && s.failure == Some(Api.GhDelete(dels[m]).error)
  {
    Cleanup.RunStopsAtFailedDelete(CachesUrl(owner, repo), map[], gets, dels, m);
  }
}
