/** `delete_all_releases` of `src/providers/github/releases.py`: every
    release of the repository is listed and deleted by id.
 */
module Releases {
  import opened Outcome
  import opened Json
  import opened Http
  import Cleanup
  import Api
  import Text

  /** The releases collection of `owner/repo`. */
  function ReleasesUrl(owner: string, repo: string): string {
    GithubApi + "/repos/" + owner + "/" + repo + "/releases"
  }

  /** `delete_all_releases(owner, repo)` for an already resolved repository:
      list the releases with no extra query parameter and delete each one at
      `.../releases/{id}`. */
  function DeleteAllReleases(owner: string, repo: string, gets: seq<Reply>, dels: seq<Reply>): (s: Cleanup.Sweep)
    ensures s.pages <= |gets|
    ensures forall u | u in s.deleted :: ReleasesUrl(owner, repo) + "/" <= u
  {
    Cleanup.Run(ReleasesUrl(owner, repo), map[], gets, dels)
  }

  /** A page of two releases, shorter than the default page of 100, is the
      last one: one listing request and one delete per release. */
  lemma TwoReleasesTwoDeletes(owner: string, repo: string, t: int, next: seq<Reply>)
    ensures var ok := Response(200, map[], "", Some(Arr([Obj([("id", Int(10))]), Obj([("id", Int(20))])])));
            var gone := Answer(Response(204, map[], "", None), t);
            var base := ReleasesUrl(owner, repo);
            DeleteAllReleases(owner, repo, [Answer(ok, t)] + next, [gone, gone])
              == Cleanup.Sweep([base + "/" + "10", base + "/" + "20"], 1, None)
  {
    var xs := [Obj([("id", Int(10))]), Obj([("id", Int(20))])];
    var ok := Response(200, map[], "", Some(Arr(xs)));
    var gone := Answer(Response(204, map[], "", None), t);
    var base := ReleasesUrl(owner, repo);
    Api.OnlyDictsKeepsObjects(xs);
    assert Api.ReadPage(Answer(ok, t), None) == Ok(xs);
    assert Api.ReadPages([Answer(ok, t)] + next, None)[0] == Ok(xs);
    assert Text.DecimalString(10) == "10" && Text.DecimalString(20) == "20";
    assert GetPresent(xs[0], "id") == Some(Int(10)) && GetPresent(xs[1], "id") == Some(Int(20));
    assert PyStr(Int(10)) == "10" && PyStr(Int(20)) == "20";
    assert Cleanup.TargetOf(base, xs[0]) == Some(base + "/" + "10");
    assert Cleanup.TargetOf(base, xs[1]) == Some(base + "/" + "20");
    Cleanup.DeleteTwoTargets(base, xs[0], xs[1], base + "/" + "10", base + "/" + "20", gone, gone);
  }

  /** The releases deleted are a prefix of the listed releases that carry an
      id, in listing order; when every delete succeeds all of them are
      deleted, one per listed release with an id, and the outcome is the
      listing's own. */
  lemma DeletesListedWithId(owner: string, repo: string, gets: seq<Reply>, dels: seq<Reply>)
    ensures var s := DeleteAllReleases(owner, repo, gets, dels);
            s.deleted <= Cleanup.Targets(ReleasesUrl(owner, repo), Api.Paginate(map[], None, gets).items)
    ensures var s := DeleteAllReleases(owner, repo, gets, dels);
            var items := Api.Paginate(map[], None, gets).items;
            var n := Cleanup.CountWithId(items);
            (|dels| >= n && forall i | 0 <= i < |dels| :: Api.GhDelete(dels[i]).Ok?)
            ==> s.deleted == Cleanup.Targets(ReleasesUrl(owner, repo), items)
                && |s.deleted| == n && s.failure == Api.Paginate(map[], None, gets).failure
  {
    Cleanup.RunMatchesListing(ReleasesUrl(owner, repo), map[], gets, dels);
    Cleanup.TargetsCount(ReleasesUrl(owner, repo), Api.Paginate(map[], None, gets).items);
  }

  /** The first failed delete, the `m + 1`-th, is re-raised after exactly the
      first `m` deletions, and no later release is tried. */
  lemma StopsAtFailedDelete(owner: string, repo: string, gets: seq<Reply>, dels: seq<Reply>, m: nat)
    requires m < |Cleanup.Targets(ReleasesUrl(owner, repo), Api.Paginate(map[], None, gets).items)| && m < |dels|
    requires Cleanup.Succeed(dels, m) && Api.GhDelete(dels[m]).Err?
    ensures var s := DeleteAllReleases(owner, repo, gets, dels);
            s.deleted == Cleanup.Targets(ReleasesUrl(owner, repo), Api.Paginate(map[], None, gets).items)[..m]
            && s.failure == Some(Api.GhDelete(dels[m]).error)
  {
    Cleanup.RunStopsAtFailedDelete(ReleasesUrl(owner, repo), map[], gets, dels, m);
  }
}
