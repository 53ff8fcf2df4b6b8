/** The loop shared by `delete_all_completed_workflow_runs`,
    `delete_all_releases` and `delete_all_actions_cache`: walk a paginated
    listing and issue one `gh_delete` per listed object that carries an `id`,
    re-raising the first failure.

    `paginate` is a generator, so deletes run between page requests: the
    deletes of page `n` are sent before page `n + 1` is requested, and a
    failing delete means no further page is requested. Page replies and
    delete replies come from two separate scripts.
 */
module Cleanup {
  import opened Outcome
  import opened Json
  import opened Http
  import Api

  /** The URL a listed object is deleted at: the collection URL followed by
      `/{id}`, or nothing when `item.get("id") is None`. */
  function TargetOf(base: string, item: Json): (u: Option<string>)
    ensures u.Some? <==> GetPresent(item, "id").Some?
    ensures u.Some? ==> u.value == base + "/" + PyStr(GetPresent(item, "id").value)
  {
    match GetPresent(item, "id")
    case None => None
    case Some(id) => Some(base + "/" + PyStr(id))
  }

  /** The URLs the loop deletes when nothing fails, in listing order. */
  function Targets(base: string, items: seq<Json>): (urls: seq<string>)
    ensures |urls| <= |items|
    ensures (forall i | 0 <= i < |items| :: TargetOf(base, items[i]).None?) ==> urls == []
  {
    if items == [] then []
    else
      var rest := Targets(base, items[1..]);
      match TargetOf(base, items[0])
      case None => rest
      case Some(u) => [u] + rest
  }

  /** Every target lies under the collection URL. */
  lemma {:induction false} TargetsUnderBase(base: string, items: seq<Json>)
    ensures forall u | u in Targets(base, items) :: base + "/" <= u
    decreases |items|
  {
    if items != [] {
      TargetsUnderBase(base, items[1..]);
    }
  }

  lemma {:induction false} TargetsAppend(base: string, a: seq<Json>, b: seq<Json>)
    ensures Targets(base, a + b) == Targets(base, a) + Targets(base, b)
    decreases |a|
  {
    if a == [] {
      assert a + b == b;
    } else {
      assert (a + b)[0] == a[0];
      assert (a + b)[1..] == a[1..] + b;
      TargetsAppend(base, a[1..], b);
    }
  }

  /** How many listed objects carry an `id`. */
  function CountWithId(items: seq<Json>): (n: nat)
    ensures n <= |items|
  {
    if items == [] then 0
    else (if GetPresent(items[0], "id").Some? then 1 else 0) + CountWithId(items[1..])
  }

  /** Objects without an `id` yield no target: there is one target per
      listed object that carries one. */
  lemma {:induction false} TargetsCount(base: string, items: seq<Json>)
    ensures |Targets(base, items)| == CountWithId(items)
    decreases |items|
  {
    if items != [] {
      TargetsCount(base, items[1..]);
    }
  }

  /** What a run of deletes did: the URLs deleted, the delete replies
      consumed, and the exception re-raised, if any. */
  datatype Deletes = Deletes(deleted: seq<string>, used: nat, failure: Option<Error>)

  /** The loop body over a sequence of listed objects: skip objects without
      an `id`, delete the others in order, stop at the first failing delete. */
  function DeleteEach(base: string, items: seq<Json>, dels: seq<Reply>): (d: Deletes)
    ensures d.used <= |dels|
    decreases |items|
  {
    if items == [] then Deletes([], 0, None)
    else
      match TargetOf(base, items[0])
      case None => DeleteEach(base, items[1..], dels)
      case Some(u) =>
        if dels == [] then Deletes([], 0, Some(NoReply))
        else
          var r := Api.GhDelete(dels[0]);
          if r.Err? then Deletes([], 1, Some(r.error))
          else
            var rest := DeleteEach(base, items[1..], dels[1..]);
            Deletes([u] + rest.deleted, rest.used + 1, rest.failure)
  }

  /** A run of deletes spends at most one reply per target: objects without
      an `id` consume none. */
  lemma {:induction false} DeleteEachBounded(base: string, items: seq<Json>, dels: seq<Reply>)
    ensures DeleteEach(base, items, dels).used <= |Targets(base, items)|
    decreases |items|
  {
    if items != [] && dels != [] {
      DeleteEachBounded(base, items[1..], dels);
      DeleteEachBounded(base, items[1..], dels[1..]);
    }
  }

  /** A run of deletes removes a prefix of the targets, each with a
      successful reply. */
  lemma {:induction false} DeleteEachPrefix(base: string, items: seq<Json>, dels: seq<Reply>)
    ensures var d := DeleteEach(base, items, dels);
            d.deleted <= Targets(base, items)
            && |d.deleted| <= |dels|
            && forall i | 0 <= i < |d.deleted| :: Api.GhDelete(dels[i]).Ok?
    decreases |items|
  {
    if items != [] {
      var t := TargetOf(base, items[0]);
      if t.None? {
        DeleteEachPrefix(base, items[1..], dels);
      } else if dels != [] && Api.GhDelete(dels[0]).Ok? {
        DeleteEachPrefix(base, items[1..], dels[1..]);
        var rest := DeleteEach(base, items[1..], dels[1..]);
        assert forall i | 0 <= i < |rest.deleted| :: dels[1..][i] == dels[i + 1];
      }
    }
  }

  /** A run of deletes completes exactly when it removed every target, one
      reply each; one that stops early leaves some target in place. */
  lemma {:induction false} DeleteEachCompletes(base: string, items: seq<Json>, dels: seq<Reply>)
    ensures var d := DeleteEach(base, items, dels);
            (d.failure.None? ==> d.deleted == Targets(base, items) && d.used == |d.deleted|)
            && (d.failure.Some? ==> |d.deleted| < |Targets(base, items)|)
    decreases |items|
  {
    if items != [] {
      var t := TargetOf(base, items[0]);
      if t.None? {
        DeleteEachCompletes(base, items[1..], dels);
      } else if dels != [] && Api.GhDelete(dels[0]).Ok? {
        DeleteEachCompletes(base, items[1..], dels[1..]);
      }
    }
  }

  /** A run of deletes that stops early stopped at the reply after the last
      deleted target: either a failing one, or none left. */
  lemma {:induction false} DeleteEachStops(base: string, items: seq<Json>, dels: seq<Reply>)
    ensures var d := DeleteEach(base, items, dels);
            (d.failure == Some(NoReply) ==> d.used == |dels| == |d.deleted|)
            && (d.failure.Some? && d.failure != Some(NoReply) ==>
                  d.used == |d.deleted| + 1 && Api.GhDelete(dels[|d.deleted|]) == Err(d.failure.value))
    decreases |items|
  {
    if items != [] {
      var t := TargetOf(base, items[0]);
      if t.None? {
        DeleteEachStops(base, items[1..], dels);
      } else if dels != [] && Api.GhDelete(dels[0]).Ok? {
        DeleteEachStops(base, items[1..], dels[1..]);
        var rest := DeleteEach(base, items[1..], dels[1..]);
        if rest.failure.Some? && rest.failure != Some(NoReply) {
          assert dels[1..][|rest.deleted|] == dels[|rest.deleted| + 1];
        }
      }
    }
  }

  /** A successful run over `a` followed by a run over `b` is one run over `a + b`. */
  lemma {:induction false} DeleteEachAppend(base: string, a: seq<Json>, b: seq<Json>, dels: seq<Reply>)
    ensures var da := DeleteEach(base, a, dels);
            var d := DeleteEach(base, a + b, dels);
            if da.failure.Some? then d == da
            else
              var db := DeleteEach(base, b, dels[da.used..]);
              d == Deletes(da.deleted + db.deleted, da.used + db.used, db.failure)
    decreases |a|, 1
  {
    if a == [] {
      assert a + b == b;
      assert dels[0..] == dels;
    } else {
      assert (a + b)[0] == a[0];
      assert (a + b)[1..] == a[1..] + b;
      if TargetOf(base, a[0]).None? {
        DeleteEachAppend(base, a[1..], b, dels);
      } else if dels != [] && Api.GhDelete(dels[0]).Ok? {
        DeleteEachAppendStep(base, a, b, dels);
      }
    }
  }

  /** Two targets and two successful replies delete both, in order. */
  lemma DeleteTwoTargets(base: string, x0: Json, x1: Json, u0: string, u1: string, ok0: Reply, ok1: Reply)
    requires TargetOf(base, x0) == Some(u0) && TargetOf(base, x1) == Some(u1)
    requires Api.GhDelete(ok0).Ok? && Api.GhDelete(ok1).Ok?
    ensures DeleteEach(base, [x0, x1], [ok0, ok1]) == Deletes([u0, u1], 2, None)
  {
    DeletesHead(base, [x0, x1], [ok0, ok1]);
    assert [x0, x1][1..] == [x1] && [ok0, ok1][1..] == [ok1];
    DeletesHead(base, [x1], [ok1]);
    assert [x1][1..] == [] && [ok1][1..] == [];
  }

  /** A run whose first object is a target and whose first reply succeeds
      deletes that target and goes on with the rest. */
  lemma DeletesHead(base: string, items: seq<Json>, dels: seq<Reply>)
    requires items != [] && dels != []
    requires TargetOf(base, items[0]).Some? && Api.GhDelete(dels[0]).Ok?
    ensures var rest := DeleteEach(base, items[1..], dels[1..]);
            DeleteEach(base, items, dels)
              == Deletes([TargetOf(base, items[0]).value] + rest.deleted, rest.used + 1, rest.failure)
  {
  }

  /** The step of `DeleteEachAppend` where the first object is deleted. */
  lemma {:induction false} DeleteEachAppendStep(base: string, a: seq<Json>, b: seq<Json>, dels: seq<Reply>)
    requires a != [] && dels != []
    requires TargetOf(base, a[0]).Some? && Api.GhDelete(dels[0]).Ok?
    ensures var da := DeleteEach(base, a, dels);
            var d := DeleteEach(base, a + b, dels);
            if da.failure.Some? then d == da
            else
              var db := DeleteEach(base, b, dels[da.used..]);
              d == Deletes(da.deleted + db.deleted, da.used + db.used, db.failure)
    decreases |a|, 0
  {
    var u := TargetOf(base, a[0]).value;
    assert (a + b)[0] == a[0];
    assert (a + b)[1..] == a[1..] + b;
    var ta := DeleteEach(base, a[1..], dels[1..]);
    var tab := DeleteEach(base, a[1..] + b, dels[1..]);
    DeletesHead(base, a, dels);
    DeletesHead(base, a + b, dels);
    var da := DeleteEach(base, a, dels);
    var d := DeleteEach(base, a + b, dels);
    assert da == Deletes([u] + ta.deleted, ta.used + 1, ta.failure);
    assert d == Deletes([u] + tab.deleted, tab.used + 1, tab.failure);
    DeleteEachAppend(base, a[1..], b, dels[1..]);
    if ta.failure.None? {
      assert dels[1..][ta.used..] == dels[da.used..];
      var db := DeleteEach(base, b, dels[da.used..]);
      assert tab == Deletes(ta.deleted + db.deleted, ta.used + db.used, db.failure);
      assert ([u] + ta.deleted) + db.deleted == [u] + (ta.deleted + db.deleted);
    } else {
      assert tab == ta;
    }
  }

  /** The first `m` delete replies are successes. */
  predicate Succeed(dels: seq<Reply>, m: nat)
    requires m <= |dels|
  {
    forall i | 0 <= i < m :: Api.GhDelete(dels[i]).Ok?
  }

  /** Past a first success, the remaining replies still succeed. */
  lemma SucceedTail(dels: seq<Reply>, m: nat)
    requires 0 < m <= |dels| && Succeed(dels, m)
    ensures Api.GhDelete(dels[0]).Ok? && Succeed(dels[1..], m - 1)
  {
    forall i | 0 <= i < m - 1 ensures Api.GhDelete(dels[1..][i]).Ok? {
      assert dels[1..][i] == dels[i + 1];
    }
  }

  /** The step of `DeleteEachFailsAt` where the first object is deleted. */
  lemma FailsAtStep(base: string, items: seq<Json>, dels: seq<Reply>, m: nat, e: Error)
    requires items != [] && 0 < m <= |dels|
    requires TargetOf(base, items[0]).Some? && Api.GhDelete(dels[0]).Ok?
    requires m - 1 <= |Targets(base, items[1..])|
    requires DeleteEach(base, items[1..], dels[1..]) == Deletes(Targets(base, items[1..])[..m - 1], m, Some(e))
    ensures m <= |Targets(base, items)|
    ensures DeleteEach(base, items, dels) == Deletes(Targets(base, items)[..m], m + 1, Some(e))
  {
    var rest := Targets(base, items[1..]);
    assert Targets(base, items) == [TargetOf(base, items[0]).value] + rest;
    DeletesHead(base, items, dels);
    assert Targets(base, items)[..m] == [TargetOf(base, items[0]).value] + rest[..m - 1];
  }

  /** When the first `m` delete replies succeed and reply `m` fails, with at
      least `m + 1` targets, the run deletes the first `m` targets, consumes
      `m + 1` replies, and re-raises that failure: no later target is tried. */
  lemma {:induction false} DeleteEachFailsAt(base: string, items: seq<Json>, dels: seq<Reply>, m: nat)
    requires m < |Targets(base, items)| && m < |dels|
    requires Succeed(dels, m)
    requires Api.GhDelete(dels[m]).Err?
    ensures DeleteEach(base, items, dels)
              == Deletes(Targets(base, items)[..m], m + 1, Some(Api.GhDelete(dels[m]).error))
    decreases |items|
  {
    var t := TargetOf(base, items[0]);
    var rest := Targets(base, items[1..]);
    if t.None? {
      assert Targets(base, items) == rest;
      DeleteEachFailsAt(base, items[1..], dels, m);
      assert DeleteEach(base, items, dels) == DeleteEach(base, items[1..], dels);
    } else if m > 0 {
      assert Targets(base, items) == [t.value] + rest;
      SucceedTail(dels, m);
      DeleteEachFailsAt(base, items[1..], dels[1..], m - 1);
      FailsAtStep(base, items, dels, m, Api.GhDelete(dels[m]).error);
    } else {
      assert DeleteEach(base, items, dels) == Deletes([], 1, Some(Api.GhDelete(dels[0]).error));
    }
  }

  /** When every delete reply is a success and there are enough of them,
      every object with an `id` is deleted. */
  lemma {:induction false} DeleteEachAllSucceed(base: string, items: seq<Json>, dels: seq<Reply>)
    requires |dels| >= |Targets(base, items)|
    requires forall i | 0 <= i < |dels| :: Api.GhDelete(dels[i]).Ok?
    ensures DeleteEach(base, items, dels) == Deletes(Targets(base, items), |Targets(base, items)|, None)
    decreases |items|
  {
    if items != [] {
      if TargetOf(base, items[0]).None? {
        DeleteEachAllSucceed(base, items[1..], dels);
      } else {
        DeleteEachAllSucceed(base, items[1..], dels[1..]);
      }
    }
  }

  /** What a cleanup did: the URLs deleted, the pages requested, and the
      exception that ended it, if any. */
  datatype Sweep = Sweep(deleted: seq<string>, pages: nat, failure: Option<Error>)

  /** The interleaved loop: read a page, delete its objects, and go on to the
      next page only when every delete succeeded and the page was full. */
  function SweepPages(base: string, size: int, pages: seq<Result<seq<Json>>>, dels: seq<Reply>): (s: Sweep)
    ensures 1 <= s.pages <= |pages| || (s.pages == 0 && pages == [])
    decreases |pages|
  {
    if pages == [] then Sweep([], 0, Some(NoReply))
    else if pages[0].Err? then Sweep([], 1, Some(pages[0].error))
    else
      var d := DeleteEach(base, pages[0].value, dels);
      if d.failure.Some? then Sweep(d.deleted, 1, d.failure)
      else if pages[0].value == [] || |pages[0].value| < size then Sweep(d.deleted, 1, None)
      else
        var rest := SweepPages(base, size, pages[1..], dels[d.used..]);
        Sweep(d.deleted + rest.deleted, rest.pages + 1, rest.failure)
  }

  /** The interleaved loop deletes exactly what "list everything, then
      delete" would, and re-raises the delete failure if there is one,
      otherwise the listing's own outcome. It never requests more pages than
      the listing alone. */
  lemma {:induction false} SweepIsListThenDelete(base: string, size: int, pages: seq<Result<seq<Json>>>, dels: seq<Reply>)
    ensures var s := SweepPages(base, size, pages, dels);
            var w := Api.WalkPages(size, pages);
            var d := DeleteEach(base, w.items, dels);
            s.deleted == d.deleted
            && s.failure == (if d.failure.Some? then d.failure else w.failure)
            && s.pages <= w.pages
            && (d.failure.None? ==> s.pages == w.pages)
    decreases |pages|
  {
    if pages != [] && pages[0].Ok? {
      var xs := pages[0].value;
      var d0 := DeleteEach(base, xs, dels);
      if xs == [] || |xs| < size {
      } else {
        var w1 := Api.WalkPages(size, pages[1..]);
        DeleteEachAppend(base, xs, w1.items, dels);
        if d0.failure.None? {
          SweepIsListThenDelete(base, size, pages[1..], dels[d0.used..]);
        }
      }
    }
  }

  /** Every URL a sweep deletes lies under the collection URL. */
  lemma {:induction false} SweepUnderBase(base: string, size: int, pages: seq<Result<seq<Json>>>, dels: seq<Reply>)
    ensures forall u | u in SweepPages(base, size, pages, dels).deleted :: base + "/" <= u
    decreases |pages|
  {
    if pages != [] && pages[0].Ok? {
      var d := DeleteEach(base, pages[0].value, dels);
      DeleteEachPrefix(base, pages[0].value, dels);
      TargetsUnderBase(base, pages[0].value);
      assert forall u | u in d.deleted :: u in Targets(base, pages[0].value) by {
        forall u | u in d.deleted ensures u in Targets(base, pages[0].value) {
          var i :| 0 <= i < |d.deleted| && d.deleted[i] == u;
          assert Targets(base, pages[0].value)[i] == u;
        }
      }
      if d.failure.None? && pages[0].value != [] && |pages[0].value| >= size {
        SweepUnderBase(base, size, pages[1..], dels[d.used..]);
      }
    }
  }

  /** One cleanup: list `base` with `params` and delete every listed object
      by id. */
  function Run(base: string, params: map<string, Json>, gets: seq<Reply>, dels: seq<Reply>): (s: Sweep)
    ensures s.pages <= |gets|
    ensures forall u | u in s.deleted :: base + "/" <= u
  {
    SweepUnderBase(base, Api.PerPage(params), Api.ReadPages(gets, None), dels);
    SweepPages(base, Api.PerPage(params), Api.ReadPages(gets, None), dels)
  }

  /** Deleted URLs are those of the listed objects in listing order, and when
      every delete succeeds the outcome is the listing's own. */
  lemma RunMatchesListing(base: string, params: map<string, Json>, gets: seq<Reply>, dels: seq<Reply>)
    ensures var s := Run(base, params, gets, dels);
            var l := Api.Paginate(params, None, gets);
            s.deleted <= Targets(base, l.items)
            && s.pages <= |l.queries|
    ensures var l := Api.Paginate(params, None, gets);
            (|dels| >= |Targets(base, l.items)| && forall i | 0 <= i < |dels| :: Api.GhDelete(dels[i]).Ok?)
            ==> Run(base, params, gets, dels) == Sweep(Targets(base, l.items), |l.queries|, l.failure)
  {
    var pages := Api.ReadPages(gets, None);
    var size := Api.PerPage(params);
    SweepIsListThenDelete(base, size, pages, dels);
    var w := Api.WalkPages(size, pages);
    assert Api.Paginate(params, None, gets).items == w.items;
    DeleteEachPrefix(base, w.items, dels);
    if |dels| >= |Targets(base, w.items)| && forall i | 0 <= i < |dels| :: Api.GhDelete(dels[i]).Ok? {
      DeleteEachAllSucceed(base, w.items, dels);
    }
  }

  /** When the deletes succeed up to the `m + 1`-th, which fails, the cleanup
      has deleted exactly the first `m` listed objects with an id, re-raises
      that failure, and tries no later object. */
  lemma RunStopsAtFailedDelete(base: string, params: map<string, Json>, gets: seq<Reply>, dels: seq<Reply>, m: nat)
    requires m < |Targets(base, Api.Paginate(params, None, gets).items)| && m < |dels|
    requires Succeed(dels, m) && Api.GhDelete(dels[m]).Err?
    ensures var s := Run(base, params, gets, dels);
            s.deleted == Targets(base, Api.Paginate(params, None, gets).items)[..m]
            && s.failure == Some(Api.GhDelete(dels[m]).error)
  {
    var size := Api.PerPage(params);
    var pages := Api.ReadPages(gets, None);
    SweepIsListThenDelete(base, size, pages, dels);
    assert Api.Paginate(params, None, gets).items == Api.WalkPages(size, pages).items;
    DeleteEachFailsAt(base, Api.Paginate(params, None, gets).items, dels, m);
  }
}
