/** The operations of `src/providers/github/security.py` built on the
    code-scanning client: the tool-filter helpers, the bulk loops
    `delete_analyses` and `dismiss_alerts`, and the argument checks of the
    `clear_vulns` facade.

    Both loops are best effort: an exception from one deletion or dismissal
    is swallowed and the loop goes on, while an exception from the listing
    itself escapes. The server is the client's single script of replies,
    shared by the listing requests and the changes they trigger.
 */
module Security {
  import opened Outcome
  import opened Json
  import opened Http
  import Text
  import SecurityClient
  import Api

  /** `is_tool_selected`: every record passes an empty filter, even one with no
      tool name; otherwise the name must be present, non-empty and listed. */
  function IsToolSelected(name: Option<string>, filter: seq<string>): (r: bool)
    ensures filter == [] ==> r
    ensures filter != [] && name.None? ==> !r
    ensures r && filter != [] ==> name.Some? && name.value in filter
  {
    if filter == [] then true
    else if name.None? || name.value == [] then false
    else name.value in filter
  }

  /** For a filter read by `parse_tools_csv`, selection is exact membership of
      the tool name (an empty name is never listed). */
  lemma SelectedByParsedFilter(csv: Option<string>, name: string)
    ensures IsToolSelected(Some(name), Text.ParseCsv(csv)) <==>
              Text.ParseCsv(csv) == [] || name in Text.ParseCsv(csv)
  {
  }

  /** `record["tool"]["name"]` when the tool is an object and the name a string. */
  function ToolName(record: Json): Option<string> {
    match Get(record, "tool")
    case Some(Obj(fields)) =>
      (match Lookup(fields, "name")
       case Some(Str(s)) => Some(s)
       case _ => None)
    case _ => None
  }

  /** The tool name is read only from a `tool` that is a dict with a string
      `name`; every other shape gives no name. */
  lemma ToolNameShape(record: Json)
    ensures ToolName(record).Some? ==>
              (Get(record, "tool").Some? && Get(record, "tool").value.Obj?
               && Lookup(Get(record, "tool").value.fields, "name") == Some(Str(ToolName(record).value)))
    ensures !(Get(record, "tool").Some? && Get(record, "tool").value.Obj?) ==> ToolName(record).None?
    ensures (Get(record, "tool").Some? && Get(record, "tool").value.Obj?
             && Lookup(Get(record, "tool").value.fields, "name").Some?
             && Lookup(Get(record, "tool").value.fields, "name").value.Str?) ==> ToolName(record).Some?
  {
  }

  /** `int(record.get(key))`, with a missing key or `null` read as `None` and a
      failing `int()` as `None`. */
  function IntField(record: Json, key: string): (n: Option<int>)
    ensures n.Some? ==> GetPresent(record, key).Some? && PyInt(GetPresent(record, key).value) == n
  {
    match GetPresent(record, key)
    case None => None
    case Some(v) => PyInt(v)
  }

  /** What a scan of `delete_analyses` stops at: a record of a selected tool
      whose `deletable` is truthy (a missing key reads as `False`). */
  predicate Candidate(record: Json, filter: seq<string>) {
    IsToolSelected(ToolName(record), filter) && Truthy(Get(record, "deletable").GetOr(Bool(false)))
  }

  /** A record the scan stops at belongs to a selected tool; a missing
      `deletable` reads as `False`. */
  lemma CandidateShape(record: Json, filter: seq<string>)
    ensures Candidate(record, filter) ==> IsToolSelected(ToolName(record), filter)
    ensures Get(record, "deletable").None? ==> !Candidate(record, filter)
    ensures filter == [] ==> (Candidate(record, filter) <==> Truthy(Get(record, "deletable").GetOr(Bool(false))))
  {
  }

  /** Position of the first candidate of a page, `|items|` when none. */
  function FirstCandidate(items: seq<Json>, filter: seq<string>): (k: nat)
    ensures k <= |items|
    ensures forall i | 0 <= i < k :: !Candidate(items[i], filter)
    ensures k < |items| ==> Candidate(items[k], filter)
  {
    if items == [] then 0
    else if Candidate(items[0], filter) then 0
    else 1 + FirstCandidate(items[1..], filter)
  }

  /** One scan of `delete_analyses`: the records seen, the candidate it
      stopped at (the rest of the listing is never requested), the replies
      consumed, and the exception that ended the listing, if any. */
  datatype Scan = Scan(seen: nat, found: Option<Json>, used: nat, failure: Option<Error>)

  function ScanPages(filter: seq<string>, script: seq<Reply>): (s: Scan)
    ensures s.used <= |script|
    ensures script == [] ==> s.failure == Some(NoReply)
    ensures s.found.Some? ==> s.failure.None? && s.used >= 1 && s.seen >= 1 && Candidate(s.found.value, filter)
    decreases |script|
  {
    var f := SecurityClient.FetchPage(script);
    match f.page
    case Fail(e) => Scan(0, None, f.used, Some(e))
    case End => Scan(0, None, f.used, None)
    case Items(xs) =>
      var k := FirstCandidate(xs, filter);
      if k < |xs| then Scan(k + 1, Some(xs[k]), f.used, None)
      else
        var rest := ScanPages(filter, script[f.used..]);
        Scan(|xs| + rest.seen, rest.found, f.used + rest.used, rest.failure)
  }

  /** How a scan relates to the full listing: with no candidate found it has
      seen every listed record, none of them a candidate, and ends the way the
      listing does; otherwise it stopped at the first candidate of the listing. */
  predicate ScanAgrees(s: Scan, l: SecurityClient.Listing, filter: seq<string>) {
    (s.found.None? ==> s.seen == |l.items| && s.failure == l.failure
                       && forall i | 0 <= i < |l.items| :: !Candidate(l.items[i], filter))
    && (s.found.Some? ==> 1 <= s.seen <= |l.items| && l.items[s.seen - 1] == s.found.value
                          && forall i | 0 <= i < s.seen - 1 :: !Candidate(l.items[i], filter))
  }

  /** Passing over a page with no candidate keeps the agreement. */
  lemma ScanAgreesPastPage(filter: seq<string>, xs: seq<Json>, used: nat, rs: Scan, rl: SecurityClient.Listing,
                           s: Scan, l: SecurityClient.Listing)
    requires FirstCandidate(xs, filter) == |xs|
    requires ScanAgrees(rs, rl, filter)
    requires s == Scan(|xs| + rs.seen, rs.found, used + rs.used, rs.failure)
    requires l == SecurityClient.Listing(xs + rl.items, rl.pages + 1, rl.failure)
    ensures ScanAgrees(s, l, filter)
  {
    var items := xs + rl.items;
    var bound := if rs.found.None? then |items| else |xs| + rs.seen - 1;
    forall i | 0 <= i < bound
      ensures !Candidate(items[i], filter)
    {
      if i >= |xs| {
        assert items[i] == rl.items[i - |xs|];
      } else {
        assert items[i] == xs[i];
      }
    }
    if rs.found.Some? {
      assert items[s.seen - 1] == rl.items[rs.seen - 1];
    }
  }

  /** Stopping at the first candidate of a page agrees with any continuation. */
  lemma ScanAgreesInPage(filter: seq<string>, xs: seq<Json>, used: nat, rl: SecurityClient.Listing,
                         s: Scan, l: SecurityClient.Listing)
    requires FirstCandidate(xs, filter) < |xs|
    requires s == Scan(FirstCandidate(xs, filter) + 1, Some(xs[FirstCandidate(xs, filter)]), used, None)
    requires l == SecurityClient.Listing(xs + rl.items, rl.pages + 1, rl.failure)
    ensures ScanAgrees(s, l, filter)
  {
    var items := xs + rl.items;
    var k := FirstCandidate(xs, filter);
    assert forall i | 0 <= i < |xs| :: items[i] == xs[i];
    assert items[k] == xs[k];
    assert forall i | 0 <= i < k :: !Candidate(items[i], filter);
  }

  /** A page without a candidate: the scan goes on to the next page, and
      agrees with the listing if the rest of it does. */
  lemma ScanPastPageStep(filter: seq<string>, script: seq<Reply>)
    requires SecurityClient.FetchPage(script).page.Items?
    requires var f := SecurityClient.FetchPage(script);
             FirstCandidate(f.page.items, filter) == |f.page.items|
    requires var f := SecurityClient.FetchPage(script);
             ScanAgrees(ScanPages(filter, script[f.used..]), SecurityClient.ListAll(script[f.used..]), filter)
    ensures ScanAgrees(ScanPages(filter, script), SecurityClient.ListAll(script), filter)
  {
    var f := SecurityClient.FetchPage(script);
    var xs := f.page.items;
    var rl := SecurityClient.ListAll(script[f.used..]);
    var rs := ScanPages(filter, script[f.used..]);
    SecurityClient.ListAllStep(script);
    assert ScanPages(filter, script) == Scan(|xs| + rs.seen, rs.found, f.used + rs.used, rs.failure);
    ScanAgreesPastPage(filter, xs, f.used, rs, rl, ScanPages(filter, script), SecurityClient.ListAll(script));
  }

  /** A scan reads the full listing up to its first candidate (and never
      requests the pages after it). */
  lemma {:induction false} ScanMatchesListing(filter: seq<string>, script: seq<Reply>)
    ensures ScanAgrees(ScanPages(filter, script), SecurityClient.ListAll(script), filter)
    decreases |script|
  {
    var f := SecurityClient.FetchPage(script);
    if f.page.Items? {
      var xs := f.page.items;
      var k := FirstCandidate(xs, filter);
      if k == |xs| {
        ScanMatchesListing(filter, script[f.used..]);
        ScanPastPageStep(filter, script);
      } else {
        var rl := SecurityClient.ListAll(script[f.used..]);
        SecurityClient.ListAllStep(script);
        assert ScanPages(filter, script) == Scan(k + 1, Some(xs[k]), f.used, None);
        ScanAgreesInPage(filter, xs, f.used, rl, ScanPages(filter, script), SecurityClient.ListAll(script));
      }
    } else {
      var failure := if f.page.Fail? then Some(f.page.error) else None;
      assert ScanPages(filter, script) == Scan(0, None, f.used, failure);
      assert SecurityClient.ListAll(script) == SecurityClient.Listing([], 1, failure);
    }
  }

  /** The two counters the bulk loops return: records scanned, and records
      deleted or dismissed. */
  datatype Counts = Counts(scanned: nat, changed: nat)

  /** `delete_analyses`: scan for the first candidate, delete it, and rescan
      from the first page, until a scan finds no candidate. A candidate
      without an integer id is passed over by starting the next scan; a
      failed deletion is swallowed and not counted. An exception from the
      listing escapes, and so does the model's running out of replies. */
  function DeleteAnalyses(client: SecurityClient.Client, filter: seq<string>, script: seq<Reply>): (r: Result<Counts>)
    ensures r.Ok? ==> r.value.changed <= r.value.scanned
    decreases |script|
  {
    var s := ScanPages(filter, script);
    if s.failure.Some? then Err(s.failure.value)
    else if s.found.None? then Ok(Counts(s.seen, 0))
    else
      var rest := script[s.used..];
      match IntField(s.found.value, "id")
      case None => AddCounts(Counts(s.seen, 0), DeleteAnalyses(client, filter, rest))
      case Some(id) =>
        var d := SecurityClient.DeleteAnalysis(client, id, rest);
        if d.result == Err(NoReply) then Err(NoReply)
        else AddCounts(Counts(s.seen, if d.result.Ok? then 1 else 0), DeleteAnalyses(client, filter, rest[|d.sent|..]))
  }

  /** A round of `delete_analyses` that found a candidate with an integer id
      and got an answer to its DELETE goes on with the replies left over: an
      exception in a later round escapes, and otherwise their counts are
      added to this round's records and, if the DELETE succeeded, one
      deletion. */
  lemma DeleteFoundRound(client: SecurityClient.Client, filter: seq<string>, script: seq<Reply>, id: int)
    requires var s := ScanPages(filter, script);
             s.failure.None? && s.found.Some? && IntField(s.found.value, "id") == Some(id)
    requires SecurityClient.DeleteAnalysis(client, id, script[ScanPages(filter, script).used..]).result != Err(NoReply)
    ensures var s := ScanPages(filter, script);
            var d := SecurityClient.DeleteAnalysis(client, id, script[s.used..]);
            var next := DeleteAnalyses(client, filter, script[s.used..][|d.sent|..]);
            DeleteAnalyses(client, filter, script) == AddCounts(Counts(s.seen, if d.result.Ok? then 1 else 0), next)
  {
  }

  /** In a dry run nothing is deleted, so each rescan finds the same first
      candidate again: against a server that keeps listing a page with a
      selected, deletable record with an integer id, `delete_analyses` never
      returns on its own, and the model only stops when the replies run out. */
  lemma {:induction false} DryRunDeleteNeverFinishes(client: SecurityClient.Client, filter: seq<string>, page: Reply, script: seq<Reply>)
    requires client.dryRun
    requires page.Answer? && SecurityClient.RetryWait(page.resp, page.at).None?
    requires SecurityClient.FetchPage([page]).page.Items?
    requires var xs := SecurityClient.FetchPage([page]).page.items;
             FirstCandidate(xs, filter) < |xs| && IntField(xs[FirstCandidate(xs, filter)], "id").Some?
    requires forall i | 0 <= i < |script| :: script[i] == page
    ensures DeleteAnalyses(client, filter, script) == Err(NoReply)
    decreases |script|
  {
    if script != [] {
      assert SecurityClient.Send(script) == SecurityClient.Send([page]);
      assert SecurityClient.FetchPage(script) == SecurityClient.FetchPage([page]);
      DryRunDeleteNeverFinishes(client, filter, page, script[1..]);
    }
  }

  /** `int(alert.get("number"))` for an alert, `None` when missing or not an integer. */
  function AlertNumber(alert: Json): Option<int> {
    IntField(alert, "number")
  }

  /** A missing or null `number` gives no number, and a present one is
      what `int()` makes of it. */
  lemma AlertNumberShape(alert: Json)
    ensures GetPresent(alert, "number").None? ==> AlertNumber(alert).None?
    ensures GetPresent(alert, "number").Some? ==> AlertNumber(alert) == PyInt(GetPresent(alert, "number").value)
  {
  }

  /** An alert `dismiss_alerts` acts on: a selected tool and an integer number. */
  predicate Dismissable(alert: Json, filter: seq<string>) {
    IsToolSelected(ToolName(alert), filter) && AlertNumber(alert).Some?
  }

  /** An alert acted on has a present number and a selected tool. */
  lemma DismissableShape(alert: Json, filter: seq<string>)
    ensures Dismissable(alert, filter) ==> GetPresent(alert, "number").Some? && IsToolSelected(ToolName(alert), filter)
    ensures filter == [] ==> (Dismissable(alert, filter) <==> AlertNumber(alert).Some?)
  {
  }

  /** How many alerts of a page are acted on. */
  function CountDismissable(alerts: seq<Json>, filter: seq<string>): (n: nat)
    ensures n <= |alerts|
  {
    if alerts == [] then 0
    else (if Dismissable(alerts[0], filter) then 1 else 0) + CountDismissable(alerts[1..], filter)
  }

  /** Progress of `dismiss_alerts` through one page: counters, replies
      consumed, and the exception that escaped, if any. */
  datatype Pass = Pass(counts: Counts, used: nat, failure: Option<Error>)

  /** The loop body of `dismiss_alerts` over the alerts of one page: every
      alert is scanned; those of a selected tool with an integer number are
      dismissed, a failed dismissal being swallowed and not counted. */
  function DismissEach(client: SecurityClient.Client, filter: seq<string>, alerts: seq<Json>, script: seq<Reply>): (p: Pass)
    ensures p.used <= |script|
    ensures p.counts.changed <= p.counts.scanned <= |alerts|
    ensures p.failure.None? ==> p.counts.scanned == |alerts|
    ensures p.counts.changed <= CountDismissable(alerts, filter)
    decreases |alerts|
  {
    if alerts == [] then Pass(Counts(0, 0), 0, None)
    else if !Dismissable(alerts[0], filter) then
      var rest := DismissEach(client, filter, alerts[1..], script);
      Pass(Counts(rest.counts.scanned + 1, rest.counts.changed), rest.used, rest.failure)
    else
      var (res, used) := SecurityClient.DismissAlert(client, script);
      if res == Err(NoReply) then Pass(Counts(1, 0), used, Some(NoReply))
      else
        var rest := DismissEach(client, filter, alerts[1..], script[used..]);
        Pass(Counts(rest.counts.scanned + 1, rest.counts.changed + if res.Ok? then 1 else 0),
             used + rest.used, rest.failure)
  }

  /** One page's counts added to those of the pages after it, unless those
      failed. */
  function AddCounts(page: Counts, rest: Result<Counts>): (r: Result<Counts>)
    ensures r.Ok? <==> rest.Ok?
    ensures rest.Err? ==> r == rest
    ensures rest.Ok? ==> r.value.scanned == page.scanned + rest.value.scanned
                         && r.value.changed == page.changed + rest.value.changed
  {
    if rest.Err? then rest else Ok(Counts(page.scanned + rest.value.scanned, page.changed + rest.value.changed))
  }

  /** `dismiss_alerts`: a single pass over the alert listing, each page's
      dismissals sent before the next page is requested. */
  function DismissAlerts(client: SecurityClient.Client, filter: seq<string>, script: seq<Reply>): (r: Result<Counts>)
    ensures r.Ok? ==> r.value.changed <= r.value.scanned
    decreases |script|
  {
    var f := SecurityClient.FetchPage(script);
    match f.page
    case Fail(e) => Err(e)
    case End => Ok(Counts(0, 0))
    case Items(xs) =>
      var p := DismissEach(client, filter, xs, script[f.used..]);
      if p.failure.Some? then Err(p.failure.value)
      else
        AddCounts(p.counts, DismissAlerts(client, filter, script[f.used + p.used..]))
  }

  /** In a dry run a page's dismissals send nothing, and each one counts. */
  lemma {:induction false} DismissEachDryRun(client: SecurityClient.Client, filter: seq<string>, alerts: seq<Json>, script: seq<Reply>)
    requires client.dryRun
    ensures DismissEach(client, filter, alerts, script) == Pass(Counts(|alerts|, CountDismissable(alerts, filter)), 0, None)
    decreases |alerts|
  {
    if alerts != [] {
      DismissEachDryRun(client, filter, alerts[1..], script);
    }
  }

  /** One page of a dry run: the page's alerts are all counted, with no
      request sent, before the next page is fetched. */
  lemma DismissAlertsDryStep(client: SecurityClient.Client, filter: seq<string>, script: seq<Reply>)
    requires client.dryRun && SecurityClient.FetchPage(script).page.Items?
    ensures var f := SecurityClient.FetchPage(script);
            var xs := f.page.items;
            DismissAlerts(client, filter, script)
            == AddCounts(Counts(|xs|, CountDismissable(xs, filter)), DismissAlerts(client, filter, script[f.used..]))
  {
    var f := SecurityClient.FetchPage(script);
    DismissEachDryRun(client, filter, f.page.items, script[f.used..]);
    assert script[f.used + 0..] == script[f.used..];
  }

  /** A dry run scans exactly the records of the alert listing, and "dismisses"
      every one of a selected tool with an integer number. */
  lemma {:induction false} DismissDryRunMatchesListing(client: SecurityClient.Client, filter: seq<string>, script: seq<Reply>)
    requires client.dryRun
    ensures var l := SecurityClient.ListAll(script);
            var r := DismissAlerts(client, filter, script);
            r == (if l.failure.None? then Ok(Counts(|l.items|, CountDismissable(l.items, filter)))
                  else Err(l.failure.value))
    decreases |script|
  {
    var f := SecurityClient.FetchPage(script);
    if f.page.Items? {
      var xs := f.page.items;
      var tail := script[f.used..];
      var l := SecurityClient.ListAll(tail);
      DismissAlertsDryStep(client, filter, script);
      DismissDryRunMatchesListing(client, filter, tail);
      CountDismissableAppend(xs, l.items, filter);
      SecurityClient.ListAllStep(script);
      assert SecurityClient.ListAll(script) == SecurityClient.Listing(xs + l.items, l.pages + 1, l.failure);
      var d := DismissAlerts(client, filter, tail);
      var page := Counts(|xs|, CountDismissable(xs, filter));
      assert DismissAlerts(client, filter, script) == AddCounts(page, d);
      if l.failure.None? {
        var all := xs + l.items;
        var r := AddCounts(page, d);
        assert d == Ok(Counts(|l.items|, CountDismissable(l.items, filter)));
        assert r.value.changed == CountDismissable(xs, filter) + CountDismissable(l.items, filter);
        assert r.Ok? && r.value.scanned == |all| && r.value.changed == CountDismissable(all, filter);
      } else {
        assert d == Err(l.failure.value);
      }
    }
  }

  /** Counting distributes over concatenation. */
  lemma {:induction false} CountDismissableAppend(a: seq<Json>, b: seq<Json>, filter: seq<string>)
    ensures CountDismissable(a + b, filter) == CountDismissable(a, filter) + CountDismissable(b, filter)
    decreases |a|
  {
    if a != [] {
      assert (a + b)[0] == a[0];
      assert (a + b)[1..] == a[1..] + b;
      CountDismissableAppend(a[1..], b, filter);
      assert CountDismissable(a + b, filter)
             == (if Dismissable(a[0], filter) then 1 else 0) + CountDismissable(a[1..] + b, filter);
      assert CountDismissable(a, filter)
             == (if Dismissable(a[0], filter) then 1 else 0) + CountDismissable(a[1..], filter);
    } else {
      assert a + b == b;
    }
  }

  /** A code-scanning record with an id (or alert number) and a tool name. */
  function Record(key: string, n: Json, tool: string, deletable: bool): Json {
    Obj([(key, n), ("deletable", Bool(deletable)), ("tool", Obj([("name", Str(tool))]))])
  }

  /** What a `Record` holds under each of its three keys. */
  lemma RecordFields(key: string, n: Json, tool: string, deletable: bool)
    requires key != "tool" && key != "deletable"
    ensures ToolName(Record(key, n, tool, deletable)) == Some(tool)
    ensures Get(Record(key, n, tool, deletable), "deletable") == Some(Bool(deletable))
    ensures Get(Record(key, n, tool, deletable), key) == Some(n)
  {
    var fields := Record(key, n, tool, deletable).fields;
    var t := Obj([("name", Str(tool))]);
    assert "deletable" != "tool";
    assert fields[1..] == [("deletable", Bool(deletable)), ("tool", t)];
    assert fields[1..][1..] == [("tool", t)];
    assert Lookup(fields[1..][1..], "tool") == Some(t);
    assert Lookup(fields[1..], "tool") == Some(t);
    assert Lookup(fields, "tool") == Some(t);
    assert Lookup(t.fields, "name") == Some(Str(tool));
    assert Lookup(fields[1..][1..], "deletable") == None;
    assert Lookup(fields[1..], "deletable") == Some(Bool(deletable));
    assert Lookup(fields[1..][1..], key) == None;
    assert Lookup(fields[1..], key) == None;
  }

  /** `int()` rejects a word that starts with a letter. */
  lemma WordIsNotInt(s: string)
    requires s != [] && 'a' <= s[0] <= 'z' && 'a' <= s[|s| - 1] <= 'z'
    ensures Text.ParseInt(s) == None
  {
    assert Text.Unpadded(s);
    Text.StripKeepsTrimmed(s);
    assert !Text.IsDigit(s[0]) && !Text.AllDigits(s);
    assert Text.SignedDigits(s) == None;
  }

  /** The Trivy and Grype filter that `parse_tools_csv("Trivy,Grype")` gives. */
  const ScenarioFilter: seq<string> := ["Trivy", "Grype"]

  /** Both tools pass the scenario filter. */
  lemma ScenarioTools()
    ensures IsToolSelected(Some("Trivy"), ScenarioFilter) && IsToolSelected(Some("Grype"), ScenarioFilter)
  {
    assert ScenarioFilter[0] == "Trivy" && ScenarioFilter[1] == "Grype";
  }

  /** An analysis record of a selected tool is a candidate exactly when it
      is deletable, and its integer id reads back. */
  lemma AnalysisRecord(id: int, tool: string, deletable: bool, filter: seq<string>)
    requires IsToolSelected(Some(tool), filter)
    ensures Candidate(Record("id", Int(id), tool, deletable), filter) == deletable
    ensures IntField(Record("id", Int(id), tool, deletable), "id") == Some(id)
  {
    RecordFields("id", Int(id), tool, deletable);
  }

  /** An alert record of a selected tool is acted on exactly when its number
      reads as an integer. */
  lemma AlertRecord(n: Json, tool: string, filter: seq<string>)
    requires IsToolSelected(Some(tool), filter)
    ensures Record("number", n, tool, false).Obj?
    ensures Dismissable(Record("number", n, tool, false), filter) == (n != Null && PyInt(n).Some?)
  {
    RecordFields("number", n, tool, false);
  }

  /** An alert that is not acted on is only counted. */
  lemma DismissEachSkips(client: SecurityClient.Client, filter: seq<string>, x: Json, xs: seq<Json>, script: seq<Reply>)
    requires !Dismissable(x, filter)
    ensures var r := DismissEach(client, filter, xs, script);
            DismissEach(client, filter, [x] + xs, script)
            == Pass(Counts(r.counts.scanned + 1, r.counts.changed), r.used, r.failure)
  {
    assert ([x] + xs)[1..] == xs;
  }

  /** An alert acted on whose PATCH answers 200 is counted as dismissed. */
  lemma DismissEachActs(client: SecurityClient.Client, filter: seq<string>, x: Json, xs: seq<Json>, more: seq<Reply>)
    requires !client.dryRun && Dismissable(x, filter)
    ensures var r := DismissEach(client, filter, xs, more);
            DismissEach(client, filter, [x] + xs, [SecurityClient.Plain(200, Obj([]))] + more)
            == Pass(Counts(r.counts.scanned + 1, r.counts.changed + 1), r.used + 1, r.failure)
  {
    SecurityClient.PlainSend(200, Obj([]), more);
    assert ([x] + xs)[1..] == xs;
    assert ([SecurityClient.Plain(200, Obj([]))] + more)[1..] == more;
  }

  /** A listing that starts with the empty page dismisses nothing. */
  lemma DismissNothingListed(client: SecurityClient.Client, filter: seq<string>)
    ensures DismissAlerts(client, filter, [SecurityClient.Plain(200, Arr([]))]) == Ok(Counts(0, 0))
  {
    SecurityClient.PlainPage([], []);
    assert [SecurityClient.Plain(200, Arr([]))] + [] == [SecurityClient.Plain(200, Arr([]))];
  }

  /** A script of four replies as one, two and one. */
  lemma FourInThree<T>(a: T, b: T, c: T, d: T)
    ensures [a] + ([b, c] + [d]) == [a, b, c, d]
    ensures ([a] + ([b, c] + [d]))[1..] == [b, c] + [d] && ([a] + ([b, c] + [d]))[3..] == [d]
    ensures [b, c] + [d] == [b] + ([c] + [d])
  {
  }

  /** The alerts of one page, two acted on and the last not: two PATCHes are
      consumed and all three alerts counted. */
  lemma DismissPageOfThree(client: SecurityClient.Client, filter: seq<string>, a: Json, b: Json, c: Json, more: seq<Reply>)
    requires !client.dryRun
    requires Dismissable(a, filter) && Dismissable(b, filter) && !Dismissable(c, filter)
    ensures DismissEach(client, filter, [a, b, c], [SecurityClient.Plain(200, Obj([])), SecurityClient.Plain(200, Obj([]))] + more)
            == Pass(Counts(3, 2), 2, None)
  {
    var patch := SecurityClient.Plain(200, Obj([]));
    var onePatch := [patch] + more;
    assert DismissEach(client, filter, [], more) == Pass(Counts(0, 0), 0, None);
    DismissEachSkips(client, filter, c, [], more);
    assert [c] + [] == [c];
    assert DismissEach(client, filter, [c], more) == Pass(Counts(1, 0), 0, None);
    DismissEachActs(client, filter, b, [c], more);
    assert [b] + [c] == [b, c];
    assert DismissEach(client, filter, [b, c], onePatch) == Pass(Counts(2, 1), 1, None);
    DismissEachActs(client, filter, a, [b, c], onePatch);
    assert [a] + [b, c] == [a, b, c];
    assert [patch, patch] + more == [patch] + onePatch;
  }

  /** Three alerts, two of a selected tool with an integer number and one
      without: two PATCHes are sent and the pass reports three scanned, two
      dismissed. */
  lemma DismissTwoOfThree(client: SecurityClient.Client, filter: seq<string>, a: Json, b: Json, c: Json)
    requires !client.dryRun && a.Obj? && b.Obj? && c.Obj?
    requires Dismissable(a, filter) && Dismissable(b, filter) && !Dismissable(c, filter)
    ensures var r := DismissAlerts(client, filter,
              [SecurityClient.Plain(200, Arr([a, b, c])),
               SecurityClient.Plain(200, Obj([])), SecurityClient.Plain(200, Obj([])),
               SecurityClient.Plain(200, Arr([]))]);
            r == Ok(Counts(3, 2))
  {
    var patch := SecurityClient.Plain(200, Obj([]));
    var empty := SecurityClient.Plain(200, Arr([]));
    var page := SecurityClient.Plain(200, Arr([a, b, c]));
    var patches := [patch, patch] + [empty];
    var script := [page] + patches;
    FourInThree(page, patch, patch, empty);
    assert SecurityClient.FetchPage(script) == SecurityClient.Fetch(SecurityClient.Items([a, b, c]), 1) by {
      SecurityClient.PlainPage([a, b, c], patches);
    }
    DismissPageOfThree(client, filter, a, b, c, [empty]);
    DismissNothingListed(client, filter);
    assert script[1..] == patches && patches[2..] == [empty];
  }

  /** The alerts 11 (Trivy), 12 (Grype) and "bad" (Trivy) under the Trivy and
      Grype filter: three scanned, two dismissed. */
  lemma DismissThreeAlerts(client: SecurityClient.Client, a: Json, b: Json, c: Json)
    requires !client.dryRun
    requires a == Record("number", Int(11), "Trivy", false)
    requires b == Record("number", Int(12), "Grype", false)
    requires c == Record("number", Str("bad"), "Trivy", false)
    ensures var r := DismissAlerts(client, ScenarioFilter,
              [SecurityClient.Plain(200, Arr([a, b, c])),
               SecurityClient.Plain(200, Obj([])), SecurityClient.Plain(200, Obj([])),
               SecurityClient.Plain(200, Arr([]))]);
            r == Ok(Counts(3, 2))
  {
    ScenarioTools();
    AlertRecord(Int(11), "Trivy", ScenarioFilter);
    AlertRecord(Int(12), "Grype", ScenarioFilter);
    AlertRecord(Str("bad"), "Trivy", ScenarioFilter);
    WordIsNotInt("bad");
    DismissTwoOfThree(client, ScenarioFilter, a, b, c);
  }

  /** A 204 to the first DELETE of an analysis: one reply, success. */
  lemma DeletedAtOnce(client: SecurityClient.Client, id: int, more: seq<Reply>)
    requires !client.dryRun
    ensures var d := SecurityClient.DeleteAnalysis(client, id, [SecurityClient.Plain(204, Null)] + more);
            d.result == Ok(()) && |d.sent| == 1
  {
    SecurityClient.DeleteDoneOn204(client, id, Response(204, map[], "", Some(Null)), 0, more);
  }

  /** A scan whose first page holds a candidate stops there. */
  lemma ScanStopsInPage(filter: seq<string>, xs: seq<Json>, more: seq<Reply>)
    requires forall i | 0 <= i < |xs| :: xs[i].Obj?
    requires FirstCandidate(xs, filter) < |xs|
    ensures ScanPages(filter, [SecurityClient.Plain(200, Arr(xs))] + more)
            == Scan(FirstCandidate(xs, filter) + 1, Some(xs[FirstCandidate(xs, filter)]), 1, None)
  {
    SecurityClient.PlainPage(xs, more);
  }

  /** A scan passes over a non-empty page with no candidate. */
  lemma ScanPassesPage(filter: seq<string>, xs: seq<Json>, more: seq<Reply>)
    requires forall i | 0 <= i < |xs| :: xs[i].Obj?
    requires xs != [] && FirstCandidate(xs, filter) == |xs|
    ensures var r := ScanPages(filter, more);
            ScanPages(filter, [SecurityClient.Plain(200, Arr(xs))] + more)
            == Scan(|xs| + r.seen, r.found, 1 + r.used, r.failure)
  {
    SecurityClient.PlainPage(xs, more);
    assert ([SecurityClient.Plain(200, Arr(xs))] + more)[1..] == more;
  }

  /** How a script of two replies and some more splits up. */
  lemma TwoThenMore<T>(a: T, b: T, more: seq<T>)
    ensures [a, b] + more == [a] + ([b] + more)
    ensures ([a, b] + more)[1..] == [b] + more && ([a, b] + more)[2..] == more
  {
  }

  /** A script of six replies as two rounds of two and a last scan. */
  lemma SixInThree<T>(a: T, b: T, c: T, d: T, e: T, f: T)
    ensures [a, b] + ([c, d] + ([e] + [f])) == [a, b, c, d, e, f]
  {
  }

  /** One round that deletes the candidate it found with a single 204. */
  lemma DeleteRound(client: SecurityClient.Client, filter: seq<string>, xs: seq<Json>, more: seq<Reply>)
    requires !client.dryRun
    requires forall i | 0 <= i < |xs| :: xs[i].Obj?
    requires FirstCandidate(xs, filter) < |xs| && IntField(xs[FirstCandidate(xs, filter)], "id").Some?
    requires DeleteAnalyses(client, filter, more).Ok?
    ensures var next := DeleteAnalyses(client, filter, more).value;
            var r := DeleteAnalyses(client, filter, [SecurityClient.Plain(200, Arr(xs)), SecurityClient.Plain(204, Null)] + more);
            r.Ok? && r.value == Counts(FirstCandidate(xs, filter) + 1 + next.scanned, next.changed + 1)
  {
    var page := SecurityClient.Plain(200, Arr(xs));
    var done := SecurityClient.Plain(204, Null);
    var script := [page, done] + more;
    var k := FirstCandidate(xs, filter);
    TwoThenMore(page, done, more);
    ScanStopsInPage(filter, xs, [done] + more);
    var id := IntField(xs[k], "id").value;
    DeletedAtOnce(client, id, more);
    var d := SecurityClient.DeleteAnalysis(client, id, script[1..]);
    assert script[1..][|d.sent|..] == more;
    DeleteFoundRound(client, filter, script, id);
  }

  /** A scan that meets the empty page first ends there, having seen nothing. */
  lemma ScanEmptyPage(filter: seq<string>, more: seq<Reply>)
    ensures ScanPages(filter, [SecurityClient.Plain(200, Arr([]))] + more) == Scan(0, None, 1, None)
  {
    SecurityClient.PlainPage([], more);
  }

  /** A scan that finds no candidate ends `delete_analyses` with what it saw. */
  lemma DeleteNothingFound(client: SecurityClient.Client, filter: seq<string>, script: seq<Reply>)
    requires ScanPages(filter, script).failure.None? && ScanPages(filter, script).found.None?
    ensures var r := DeleteAnalyses(client, filter, script);
            r.Ok? && r.value == Counts(ScanPages(filter, script).seen, 0)
  {
  }

  /** A last scan that reads past a record that is no candidate to the empty
      page ends `delete_analyses`. */
  lemma DeleteLastScan(client: SecurityClient.Client, filter: seq<string>, y: Json)
    requires y.Obj? && !Candidate(y, filter)
    ensures var r := DeleteAnalyses(client, filter, [SecurityClient.Plain(200, Arr([y]))] + [SecurityClient.Plain(200, Arr([]))]);
            r.Ok? && r.value == Counts(1, 0)
  {
    var empty := SecurityClient.Plain(200, Arr([]));
    ScanEmptyPage(filter, []);
    assert [empty] + [] == [empty];
    ScanPassesPage(filter, [y], [empty]);
    DeleteNothingFound(client, filter, [SecurityClient.Plain(200, Arr([y]))] + [empty]);
  }

  /** Three objects make a page of objects. */
  lemma ThreeObjects(x: Json, y: Json, z: Json)
    requires x.Obj? && y.Obj? && z.Obj?
    ensures forall i | 0 <= i < |[x, y, z]| :: [x, y, z][i].Obj?
  {
  }

  /** The first round of the scenario below: the scan of `[x, y, z]` stops
      at `x` and deletes it. */
  lemma DeleteFirstRound(client: SecurityClient.Client, filter: seq<string>, x: Json, y: Json, z: Json, more: seq<Reply>)
    requires !client.dryRun && x.Obj? && y.Obj? && z.Obj?
    requires Candidate(x, filter) && IntField(x, "id").Some?
    requires DeleteAnalyses(client, filter, more).Ok?
    ensures var next := DeleteAnalyses(client, filter, more).value;
            var r := DeleteAnalyses(client, filter, [SecurityClient.Plain(200, Arr([x, y, z])), SecurityClient.Plain(204, Null)] + more);
            r.Ok? && r.value == Counts(1 + next.scanned, next.changed + 1)
  {
    assert FirstCandidate([x, y, z], filter) == 0;
    ThreeObjects(x, y, z);
    DeleteRound(client, filter, [x, y, z], more);
  }

  /** The second round of the scenario below: the scan of `[y, z]` stops at
      `z`, deletes it, and the last scan reads past `y` to the empty page. */
  lemma DeleteSecondRound(client: SecurityClient.Client, filter: seq<string>, y: Json, z: Json)
    requires !client.dryRun && y.Obj? && z.Obj?
    requires !Candidate(y, filter) && Candidate(z, filter) && IntField(z, "id").Some?
    ensures var r := DeleteAnalyses(client, filter,
              [SecurityClient.Plain(200, Arr([y, z])), SecurityClient.Plain(204, Null)]
              + ([SecurityClient.Plain(200, Arr([y]))] + [SecurityClient.Plain(200, Arr([]))]));
            r.Ok? && r.value == Counts(3, 1)
  {
    DeleteLastScan(client, filter, y);
    assert FirstCandidate([y, z], filter) == 1;
    DeleteRound(client, filter, [y, z], [SecurityClient.Plain(200, Arr([y]))] + [SecurityClient.Plain(200, Arr([]))]);
  }

  /** Three analyses, the first and last deletable, against a server that
      stops listing what it deleted: each scan deletes the first candidate,
      and the last scan reads past the remaining record to the empty page.
      Four records are scanned in all and two deleted. */
  lemma DeleteTwoOfThree(client: SecurityClient.Client, filter: seq<string>, x: Json, y: Json, z: Json, script: seq<Reply>)
    requires !client.dryRun && x.Obj? && y.Obj? && z.Obj?
    requires Candidate(x, filter) && !Candidate(y, filter) && Candidate(z, filter)
    requires IntField(x, "id").Some? && IntField(z, "id").Some?
    requires script == [SecurityClient.Plain(200, Arr([x, y, z])), SecurityClient.Plain(204, Null),
                        SecurityClient.Plain(200, Arr([y, z])), SecurityClient.Plain(204, Null),
                        SecurityClient.Plain(200, Arr([y])), SecurityClient.Plain(200, Arr([]))]
    ensures DeleteAnalyses(client, filter, script) == Ok(Counts(4, 2))
  {
    var done := SecurityClient.Plain(204, Null);
    var p1 := SecurityClient.Plain(200, Arr([x, y, z]));
    var mid := [SecurityClient.Plain(200, Arr([y, z])), done]
               + ([SecurityClient.Plain(200, Arr([y]))] + [SecurityClient.Plain(200, Arr([]))]);
    SixInThree(p1, done, SecurityClient.Plain(200, Arr([y, z])), done,
               SecurityClient.Plain(200, Arr([y])), SecurityClient.Plain(200, Arr([])));
    assert script == [p1, done] + mid;
    DeleteSecondRound(client, filter, y, z);
    DeleteFirstRound(client, filter, x, y, z, mid);
  }

  /** The analyses 101 (Trivy, deletable), 102 (Grype, not deletable) and 103
      (Grype, deletable) under the Trivy and Grype filter. */
  lemma DeleteScenarioAnalyses(client: SecurityClient.Client, x: Json, y: Json, z: Json, script: seq<Reply>)
    requires !client.dryRun
    requires x == Record("id", Int(101), "Trivy", true)
    requires y == Record("id", Int(102), "Grype", false)
    requires z == Record("id", Int(103), "Grype", true)
    requires script == [SecurityClient.Plain(200, Arr([x, y, z])), SecurityClient.Plain(204, Null),
                        SecurityClient.Plain(200, Arr([y, z])), SecurityClient.Plain(204, Null),
                        SecurityClient.Plain(200, Arr([y])), SecurityClient.Plain(200, Arr([]))]
    ensures DeleteAnalyses(client, ScenarioFilter, script) == Ok(Counts(4, 2))
  {
    ScenarioTools();
    AnalysisRecord(101, "Trivy", true, ScenarioFilter);
    AnalysisRecord(102, "Grype", false, ScenarioFilter);
    AnalysisRecord(103, "Grype", true, ScenarioFilter);
    DeleteTwoOfThree(client, ScenarioFilter, x, y, z, script);
  }

  /** The reasons GitHub accepts for dismissing an alert. */
  const ValidReasons: set<string> := {"false_positive", "won't_fix", "used_in_tests"}

  /** The result of `clear_vulns`: the mode run and its two counters. */
  datatype Report = Deleted(counts: Counts) | Dismissed(counts: Counts)

  /** The token `clear_vulns` uses: the argument, else `GH_TOKEN`, else
      `GITHUB_TOKEN`, stripped. */
  function ResolveToken(token: Option<string>, env: Env): (t: string)
    ensures t == [] || (!Text.IsSpace(t[0]) && !Text.IsSpace(t[|t| - 1]))
    ensures token.Some? && !Text.IsBlank(token.value) ==> t == Text.Strip(token.value)
  {
    Text.Strip(OrElse(OrElse(token.GetOr(""), EnvOrEmpty(env, "GH_TOKEN")), EnvOrEmpty(env, "GITHUB_TOKEN")))
  }

  /** `clear_vulns` for a caller that supplies the session: resolve the token
      (none is a `ValueError`), read the tool filter, build the client (an
      invalid repository is a `ValueError`), then run the mode. In dismiss
      mode a reason outside the accepted three is a `ValueError` raised before
      any alert is listed; any mode other than delete or dismiss is a
      `ValueError`. */
  function ClearVulns(repo: string, mode: string, token: Option<string>, env: Env, tools: Option<string>,
                      reason: string, dryRun: bool, script: seq<Reply>): (r: Result<Report>)
    ensures ResolveToken(token, env) == [] ==> r == Err(ValueError)
    ensures '/' !in repo ==> r == Err(ValueError)
    ensures mode == "dismiss" && reason !in ValidReasons ==> r == Err(ValueError)
    ensures mode != "delete" && mode != "dismiss" ==> r == Err(ValueError)
    ensures r.Ok? && mode == "delete" ==> r.value.Deleted? && r.value.counts.changed <= r.value.counts.scanned
    ensures r.Ok? && mode == "dismiss" ==> r.value.Dismissed? && r.value.counts.changed <= r.value.counts.scanned
  {
    var tok := ResolveToken(token, env);
    if tok == [] then Err(ValueError)
    else
      var filter := Text.ParseCsv(tools);
      match SecurityClient.NewClient(tok, repo, dryRun)
      case Err(e) => Err(e)
      case Ok(client) => RunMode(client, filter, mode, reason, script)
  }

  /** The bulk operation `clear_vulns` picks for `mode` once the client is
      built. */
  function RunMode(client: SecurityClient.Client, filter: seq<string>, mode: string, reason: string,
                   script: seq<Reply>): (r: Result<Report>)
    ensures mode == "dismiss" && reason !in ValidReasons ==> r == Err(ValueError)
    ensures mode != "delete" && mode != "dismiss" ==> r == Err(ValueError)
    ensures r.Ok? && mode == "delete" ==> r.value.Deleted? && r.value.counts.changed <= r.value.counts.scanned
    ensures r.Ok? && mode == "dismiss" ==> r.value.Dismissed? && r.value.counts.changed <= r.value.counts.scanned
  {
    if mode == "delete" then
      match DeleteAnalyses(client, filter, script)
      case Err(e) => Err(e)
      case Ok(c) => Ok(Deleted(c))
    else if mode == "dismiss" then
      if reason !in ValidReasons then Err(ValueError)
      else
        match DismissAlerts(client, filter, script)
        case Err(e) => Err(e)
        case Ok(c) => Ok(Dismissed(c))
    else Err(ValueError)
  }
}
