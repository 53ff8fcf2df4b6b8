/** `delete_all_completed_workflow_runs` and `register_actions` of
    `src/providers/github/actions.py`: every completed GitHub Actions run of
    the repository is listed and deleted by id, and the menu of a provider
    gets the run cleanup and the social sync.
 */
module Actions {
  import opened Outcome
  import opened Json
  import opened Http
  import Cleanup
  import Api
  import Provider
  import Text

  /** The workflow runs collection of `owner/repo`. */
  function RunsUrl(owner: string, repo: string): string {
    GithubApi + "/repos/" + owner + "/" + repo + "/actions/runs"
  }

  /** The query `paginate` is given: only runs whose status is `completed`. */
  const CompletedOnly: map<string, Json> := map["status" := Str("completed")]

  /** `delete_all_completed_workflow_runs(owner, repo)` for an already
      resolved repository: list the completed runs and delete each one at
      `.../actions/runs/{id}`, skipping runs without an id and re-raising the
      first failed delete. The count the source logs is `|deleted|`. */
  function DeleteCompletedRuns(owner: string, repo: string, gets: seq<Reply>, dels: seq<Reply>): (s: Cleanup.Sweep)
    ensures s.pages <= |gets|
    ensures forall u | u in s.deleted :: RunsUrl(owner, repo) + "/" <= u
  {
    Cleanup.Run(RunsUrl(owner, repo), CompletedOnly, gets, dels)
  }

  /** The listing the cleanup walks. */
  function Listed(gets: seq<Reply>): Api.Listing {
    Api.Paginate(CompletedOnly, None, gets)
  }

  /** Every page request asks for completed runs, page by page, 100 at a
      time. */
  lemma QueriesAskForCompleted(gets: seq<Reply>)
    ensures forall i | 0 <= i < |Listed(gets).queries| ::
              Listed(gets).queries[i]["status"] == Str("completed")
              && Listed(gets).queries[i]["page"] == Int(i + 1)
              && Listed(gets).queries[i]["per_page"] == Int(100)
  {
    assert Api.PerPage(CompletedOnly) == 100;
  }

  /** The runs deleted are a prefix of the listed runs that carry an id, in
      listing order, and when every delete succeeds all of them are deleted:
      the total is the number of listed runs with an id, and the outcome is
      the listing's own. */
  lemma CleanupDeletesRunsWithId(owner: string, repo: string, gets: seq<Reply>, dels: seq<Reply>)
    ensures var s := DeleteCompletedRuns(owner, repo, gets, dels);
            s.deleted <= Cleanup.Targets(RunsUrl(owner, repo), Listed(gets).items)
    ensures var s := DeleteCompletedRuns(owner, repo, gets, dels);
            var n := Cleanup.CountWithId(Listed(gets).items);
            (|dels| >= n && forall i | 0 <= i < |dels| :: Api.GhDelete(dels[i]).Ok?)
            ==> s.deleted == Cleanup.Targets(RunsUrl(owner, repo), Listed(gets).items)
                && |s.deleted| == n && s.failure == Listed(gets).failure
  {
    Cleanup.RunMatchesListing(RunsUrl(owner, repo), CompletedOnly, gets, dels);
    Cleanup.TargetsCount(RunsUrl(owner, repo), Listed(gets).items);
  }

  /** When the deletes succeed up to the `m + 1`-th, which fails, the cleanup
      has deleted exactly the first `m` runs with an id, re-raises that
      failure, and tries no later run. */
  lemma CleanupStopsAtFailedDelete(owner: string, repo: string, gets: seq<Reply>, dels: seq<Reply>, m: nat)
    requires m < |Cleanup.Targets(RunsUrl(owner, repo), Listed(gets).items)| && m < |dels|
    requires Cleanup.Succeed(dels, m) && Api.GhDelete(dels[m]).Err?
    ensures var s := DeleteCompletedRuns(owner, repo, gets, dels);
            s.deleted == Cleanup.Targets(RunsUrl(owner, repo), Listed(gets).items)[..m]
            && s.failure == Some(Api.GhDelete(dels[m]).error)
  {
    Cleanup.RunStopsAtFailedDelete(RunsUrl(owner, repo), CompletedOnly, gets, dels, m);
  }

  /** The operations `register_actions` puts in the menu: the run cleanup
      with the repository resolved by prompt, and the social sync with
      `dry_run` forced off. */
  datatype Action = CleanupRuns | SocialSync(dryRun: bool)

  const CleanupLabel: string := "Pulizia workflow runs"
  const SyncLabel: string := "Sincronizzazione social"

  /** `register_actions(provider)`: register the cleanup, then the social
      sync. Both labels are non-blank and already stripped, so neither
      registration can fail. */
  function RegisterActions(p: Provider.Provider<Action>): (r: Provider.Provider<Action>)
    ensures r.name == p.name
    ensures Provider.Lookup(r.ops, CleanupLabel) == Some(CleanupRuns)
    ensures Provider.Lookup(r.ops, SyncLabel) == Some(SocialSync(false))
    ensures forall k | k != CleanupLabel && k != SyncLabel :: Provider.Lookup(r.ops, k) == Provider.Lookup(p.ops, k)
  {
    LabelsStripped();
    var q := Provider.Register(p, CleanupLabel, Provider.Callable(CleanupRuns)).value;
    var r := Provider.Register(q, SyncLabel, Provider.Callable(SocialSync(false))).value;
    forall k ensures Provider.Lookup(r.ops, k)
                       == (if k == SyncLabel then Some(SocialSync(false))
                           else if k == CleanupLabel then Some(CleanupRuns)
                           else Provider.Lookup(p.ops, k)) {
      Provider.RegisterStores(p, CleanupLabel, CleanupRuns, k);
      Provider.RegisterStores(q, SyncLabel, SocialSync(false), k);
    }
    r
  }

  /** Both menu labels strip to themselves. */
  lemma LabelsStripped()
    ensures Text.Strip(CleanupLabel) == CleanupLabel && Text.Strip(SyncLabel) == SyncLabel
  {
    assert Text.Unpadded(CleanupLabel) && Text.Unpadded(SyncLabel);
    Text.StripKeepsTrimmed(CleanupLabel);
    Text.StripKeepsTrimmed(SyncLabel);
  }

  /** From the menu, the social sync always runs for real: whatever the
      provider held before, running its label invokes the sync with
      `dry_run` off, and the menu lists both labels. */
  lemma MenuSyncIsNotDry<V>(p: Provider.Provider<Action>, invoke: Action -> Result<V>)
    ensures Provider.Run(RegisterActions(p), SyncLabel, invoke) == invoke(SocialSync(false))
    ensures Provider.Run(RegisterActions(p), CleanupLabel, invoke) == invoke(CleanupRuns)
    ensures CleanupLabel in Provider.ListOperations(RegisterActions(p))
            && SyncLabel in Provider.ListOperations(RegisterActions(p))
  {
  }
}
