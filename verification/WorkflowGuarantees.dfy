/** What can be relied on after a traversal. */
module WorkflowGuarantees {
  import opened Wrappers
  import opened StableSorting
  import opened WorkflowModel
  import opened WorkflowHelpers
  import opened WorkflowTraversal

  // ----- one visit -----

  /** The address passed the final-file test, either as the visited page itself or as its generated target. */
  ghost predicate Verified(web: Web, entry: Entry, url: string) {
    || (url == entry.action.url && FinalFile(web, web.fetch(entry.action).response, url))
    || FinalFile(web, web.inspect(url), url)
  }

  /** What a visit reports: a success names a verified address, anything else names none, and the quality is the
      branch's own. */
  ghost predicate ReportSound(web: Web, entry: Entry, result: Result) {
    && (result.status == Success <==> result.finalUrl.Some?)
    && (result.finalUrl.Some? ==> Verified(web, entry, result.finalUrl.value))
    && result.quality == entry.quality
    && result.pageUrl == entry.action.url
  }

  /** What a visit finds: one step deeper, beyond the depth limit only by a redirect, and, when one quality is
      wanted, never of another one. */
  ghost predicate NextSound(web: Web, selected: string, entry: Entry, next: Entry) {
    && next.depth == entry.depth + 1
    && (next.depth <= MAX_DEPTH || Redirects(web.fetch(entry.action).response.status))
    && (!Unrestricted(web, selected) ==>
          next.quality == entry.quality || web.canonical(next.quality) == web.canonical(selected))
  }

  lemma VisitActionsSound(web: Web, selected: string, entry: Entry, page: Page, actions: seq<Action>, base: Result)
    requires ReportSound(web, entry, base) && base.finalUrl.None?
    ensures var verdict := VisitActions(web, selected, entry, page, actions, base);
            && (forall result <- Reported(verdict) :: ReportSound(web, entry, result))
            && (forall next <- Successors(verdict) :: NextSound(web, selected, entry, next))
  {
    hide FinalFile;
    var next := NextActions(web, selected, entry.action, actions);
    forall item <- next
      ensures !Unrestricted(web, selected) ==> item.quality == "" || QualityMatches(web, item.quality, selected)
    {
      NextActionsMatch(web, selected, entry.action, actions, item);
    }
  }

  lemma NextActionsMatch(web: Web, selected: string, action: Action, actions: seq<Action>, item: Action)
    requires item in NextActions(web, selected, action, actions)
    ensures !Unrestricted(web, selected) ==> item.quality == "" || QualityMatches(web, item.quality, selected)
    ensures !web.sameResource(item.url, action.url)
  {
    hide BranchActions;
    var branch := match web.hubcloudNext(action.url, actions)
      case Some(next) => next
      case None => BranchActions(web, actions);
    var test := (item: Action) => !web.sameResource(item.url, action.url);
    FilterKeeps(branch, test);
    var elsewhere := Filter(branch, test);
    if !Unrestricted(web, selected) {
      FilterKeeps(elsewhere, (item: Action) => item.quality == "" || QualityMatches(web, item.quality, selected));
    }
  }

  lemma VisitSound(web: Web, selected: string, entry: Entry, late: bool)
    ensures var verdict := Visit(web, selected, entry, late);
            && (forall result <- Reported(verdict) :: ReportSound(web, entry, result))
            && (forall next <- Successors(verdict) :: NextSound(web, selected, entry, next))
  {
    hide FinalFile, VisitActions, NextSound;
    var page, url := web.fetch(entry.action), entry.action.url;
    var found := if page.html != "" then web.parse(url, page.html) else [];
    var target := Action(page.next, entry.action.caption + " → HTTP redirect", url, "HTTP Location header", entry.quality,
      "GET", "");
    RedirectSound(web, selected, entry, target);
    VisitActionsSound(web, selected, entry, page, found, Base(entry));
    match web.render(url)
    case Unavailable(reason) =>
      VisitActionsSound(web, selected, entry, page, found, Base(entry).(message := "Browser rendering unavailable: " + reason));
    case Rendered(failed, html, navigationUrl) =>
      var from := if navigationUrl != "" then navigationUrl else url;
      VisitActionsSound(web, selected, entry, page, Merge(found, web.parse(from, html)), Base(entry));
  }

  lemma RedirectSound(web: Web, selected: string, entry: Entry, target: Action)
    ensures Redirects(web.fetch(entry.action).response.status) ==>
              NextSound(web, selected, entry, Entry(target, entry.depth + 1, entry.quality))
  {
  }

  // ----- the whole trail -----

  lemma {:induction false} ReportsOf(trail: seq<Visited>, result: Result)
    requires result in ResultsOf(trail)
    ensures exists visit <- trail :: result in Reported(visit.verdict)
  {
    var front, last := trail[..|trail| - 1], trail[|trail| - 1];
    assert trail == front + [last];
    if result in ResultsOf(front) {
      ReportsOf(front, result);
      var visit :| visit in front && result in Reported(visit.verdict);
      assert visit in trail;
    } else {
      assert last in trail;
    }
  }

  lemma VisitInTrail(web: Web, selected: string, trail: seq<Visited>, visit: Visited)
    requires TrailTrue(web, selected, trail)
    requires visit in trail
    ensures visit.verdict == Visit(web, selected, visit.entry, visit.verdict.OutOfTime?)
  {
    hide Visit;
  }

  /** No result is reported as a success unless its address passed the final-file test, and only then is an
      address given at all. */
  lemma SuccessesAreVerified(web: Web, selected: string, trail: seq<Visited>, result: Result)
    requires TrailTrue(web, selected, trail)
    requires result in ResultsOf(trail)
    ensures result.status == Success <==> result.finalUrl.Some?
    ensures result.status == Success ==>
              exists visit <- trail :: Verified(web, visit.entry, result.finalUrl.value)
  {
    hide TrailTrue, Visit, Verified;
    ReportsOf(trail, result);
    var visit :| visit in trail && result in Reported(visit.verdict);
    VisitInTrail(web, selected, trail, visit);
    VisitSound(web, selected, visit.entry, visit.verdict.OutOfTime?);
    assert ReportSound(web, visit.entry, result);
  }

  ghost function Expansions(trail: seq<Visited>): nat {
    if trail == [] then 0
    else Expansions(trail[..|trail| - 1]) + (if trail[|trail| - 1].verdict.Expand? then 1 else 0)
  }

  /** Every visit either reports exactly one result or is expanded. */
  lemma {:induction false} EveryVisitAccountedFor(trail: seq<Visited>)
    ensures |ResultsOf(trail)| + Expansions(trail) == |trail|
  {
    if trail != [] {
      EveryVisitAccountedFor(trail[..|trail| - 1]);
    }
  }

  /** The whole report: one result for each visit that was not expanded, and one more exactly when entries were
      left; and then the analysis as a whole is never called blocked. */
  lemma ReportCounts(trail: seq<Visited>, left: seq<Entry>, movieUrl: string, timedOut: bool, results: seq<Result>)
    requires results == ResultsOf(trail) + (if left != [] then [LimitResult(movieUrl, timedOut)] else [])
    ensures |results| == |trail| - Expansions(trail) + (if left != [] then 1 else 0)
    ensures left != [] ==> Overall(results) != Blocked
  {
    EveryVisitAccountedFor(trail);
    OverallMeans(results);
    if left != [] {
      assert results[|results| - 1] == LimitResult(movieUrl, timedOut);
      assert results[|results| - 1] in results;
    }
  }

  // ----- along the links -----

  /** A visited entry is a root or was found by an earlier visit. */
  lemma FoundEarlier(web: Web, roots: seq<Entry>, trail: seq<Visited>, i: nat) returns (j: nat)
    requires Earned(web, roots, trail)
    requires i < |trail| && trail[i].entry !in roots
    ensures j < i && trail[i].entry in Successors(trail[j].verdict)
  {
    assert FoundBy(roots, trail[..i], trail[i].entry);
    var visit :| visit in trail[..i] && trail[i].entry in Successors(visit.verdict);
    j :| 0 <= j < i && trail[..i][j] == visit;
  }

  /** The i-th visit is at most i steps deep, so no chain is longer than the node limit; and a page action is
      never deeper than the depth limit, which redirects alone can exceed. */
  lemma {:induction false} DepthIsBounded(web: Web, selected: string, roots: seq<Entry>, trail: seq<Visited>, i: nat)
    requires TrailTrue(web, selected, trail) && Earned(web, roots, trail)
    requires forall root <- roots :: root.depth == 0
    requires i < |trail|
    ensures trail[i].entry.depth <= i
    ensures trail[i].entry.depth > MAX_DEPTH ==>
              exists j :: 0 <= j < i && trail[i].entry in Successors(trail[j].verdict)
                          && Redirects(web.fetch(trail[j].entry.action).response.status)
    decreases i
  {
    hide TrailTrue, Visit, Earned, Redirects;
    if trail[i].entry !in roots {
      var j := FoundEarlier(web, roots, trail, i);
      DepthIsBounded(web, selected, roots, trail, j);
      VisitInTrail(web, selected, trail, trail[j]);
      VisitSound(web, selected, trail[j].entry, trail[j].verdict.OutOfTime?);
      assert NextSound(web, selected, trail[j].entry, trail[i].entry);
    }
  }

  /** At the depth limit and below it a visit still finds something exactly if it is in time, no form and no final
      file, and a redirect with a target. */
  lemma DeepVisitsOnlyRedirect(web: Web, selected: string, entry: Entry, late: bool)
    requires entry.depth >= MAX_DEPTH
    ensures var response := web.fetch(entry.action).response;
            Visit(web, selected, entry, late).Expand? <==>
              && entry.action.verb == "GET" && !late
              && !FinalFile(web, response, entry.action.url)
              && Redirects(response.status) && web.fetch(entry.action).next != ""
  {
    hide FinalFile, Redirects;
  }

  // ----- a chain of redirects -----

  /** A web in which every address redirects to a longer one. */
  function RedirectingWeb(): Web {
    Web(
      (action: Action) => Page("", Response(302, "", false), action.url + "x"),
      (url: string) => Unavailable(""),
      (url: string) => "",
      (url: string) => Response(404, "", false),
      (url: string, html: string) => [],
      (html: string) => None,
      (html: string, actions: seq<Action>) => false,
      (html: string) => false,
      (url: string, actions: seq<Action>) => None,
      (a: string, b: string) => a == b,
      (action: Action) => true,
      (action: Action) => false,
      (action: Action) => false,
      (action: Action) => 1,
      (quality: string) => quality,
      (quality: string) => quality == "all",
      (url: string) => false,
      (response: Response, url: string) => false,
      (response: Response, url: string) => true)
  }

  const DOWNLOAD := Entry(Action("x", "Download", "movie", "", "1080p", "GET", ""), 0, "1080p")

  /** The i-th address of the chain: each is where the one before redirects to. */
  function ChainEntry(i: nat): (entry: Entry)
    ensures entry.depth == i && |entry.action.url| == i + 1 && entry.action.verb == "GET"
  {
    if i == 0 then DOWNLOAD
    else
      var from := ChainEntry(i - 1);
      var target := Action(from.action.url + "x", from.action.caption + " → HTTP redirect", from.action.url,
        "HTTP Location header", from.quality, "GET", "");
      Entry(target, i, from.quality)
  }

  function Chain(n: nat): (trail: seq<Visited>)
    ensures |trail| == n
    ensures forall i :: 0 <= i < n ==> trail[i] == Visited(ChainEntry(i), Expand([ChainEntry(i + 1)]), [])
  {
    seq(n, i requires 0 <= i < n => Visited(ChainEntry(i), Expand([ChainEntry(i + 1)]), []))
  }

  lemma ChainVisit(i: nat)
    ensures Visit(RedirectingWeb(), "1080p", ChainEntry(i), false) == Expand([ChainEntry(i + 1)])
  {
    hide VisitPage;
    var entry := ChainEntry(i);
    assert !FinalFile(RedirectingWeb(), Response(302, "", false), entry.action.url);
    assert Redirects(302);
  }

  /** Every trail of the traversal from this download on that is never late follows the chain, address by address,
      and always has the next one waiting. */
  lemma RedirectRunsAreChains(trail: seq<Visited>, waiting: seq<Entry>, taken: seq<Entry>)
    requires Underway(RedirectingWeb(), "1080p", [DOWNLOAD], trail, waiting, taken)
    requires forall visit <- trail :: !visit.verdict.OutOfTime?
    ensures FollowsTheChain(trail)
    ensures waiting != []
  {
    hide RedirectingWeb, TrailTrue, Earned, Covered, QueueFound, InTurn, FirstByKey, EntriesOf, Discovered;
    forall i | 0 <= i < |trail|
      ensures trail[i].entry == ChainEntry(i) && trail[i].verdict == Expand([ChainEntry(i + 1)])
    {
      FollowsChain(trail, i);
    }
    if waiting == [] {
      ChainIsNeverClosed(trail);
    }
  }

  lemma {:induction false} FollowsChain(trail: seq<Visited>, i: nat)
    requires TrailTrue(RedirectingWeb(), "1080p", trail) && Earned(RedirectingWeb(), [DOWNLOAD], trail)
    requires forall visit <- trail :: !visit.verdict.OutOfTime?
    requires i < |trail|
    ensures trail[i].entry == ChainEntry(i) && trail[i].verdict == Expand([ChainEntry(i + 1)])
    decreases i
  {
    hide RedirectingWeb, Visit, Earned;
    if trail[i].entry !in [DOWNLOAD] {
      var j := FoundEarlier(RedirectingWeb(), [DOWNLOAD], trail, i);
      FollowsChain(trail, j);
      assert trail[i].entry == ChainEntry(j + 1);
      if j + 1 < i {
        FollowsChain(trail, j + 1);
        assert false;
      }
    } else if i > 0 {
      FollowsChain(trail, 0);
      assert false;
    }
    assert trail[i] in trail;
    VisitInTrail(RedirectingWeb(), "1080p", trail, trail[i]);
    ChainVisit(i);
  }

  ghost predicate FollowsTheChain(trail: seq<Visited>) {
    forall i :: 0 <= i < |trail| ==> trail[i].entry == ChainEntry(i) && trail[i].verdict == Expand([ChainEntry(i + 1)])
  }

  lemma NextIsNew(trail: seq<Visited>)
    requires FollowsTheChain(trail)
    ensures KeyOf(ChainEntry(|trail|).action) !in VisitedKeys(trail)
  {
    forall visit <- trail
      ensures KeyOf(visit.entry.action) != KeyOf(ChainEntry(|trail|).action)
    {
      var i :| 0 <= i < |trail| && trail[i] == visit;
      assert |ChainEntry(i).action.url| != |ChainEntry(|trail|).action.url|;
    }
  }

  lemma ChainIsNeverClosed(trail: seq<Visited>)
    requires FollowsTheChain(trail)
    ensures !Covered([DOWNLOAD], trail, [])
  {
    NextIsNew(trail);
    var n := |trail|;
    var next := KeyOf(ChainEntry(n).action);
    hide KeyOf, VisitedKeys;
    assert next !in VisitedKeys(trail) + Keys([]);
    if n == 0 {
      assert DOWNLOAD in [DOWNLOAD] && next in Keys([DOWNLOAD]);
    } else {
      var last := trail[n - 1];
      assert last in trail && ChainEntry(n) in Successors(last.verdict);
      assert next in Keys(Successors(last.verdict));
    }
  }

  /** A traversal that is never late and starts with this download makes as many visits as the node limit allows,
      each one deeper than the one before and so well past the depth limit, reports nothing from any of them, and
      stops only because of the node limit. */
  method FollowRedirects(movieUrl: string) returns (results: seq<Result>, ghost trail: seq<Visited>)
    ensures |trail| == MAX_WORKFLOW_NODES > MAX_DEPTH
    ensures forall i :: 0 <= i < |trail| ==> trail[i].entry == ChainEntry(i) && trail[i].entry.depth == i
    ensures results == [LimitResult(movieUrl, false)]
  {
    hide RedirectingWeb, Underway, Visit;
    var timedOut;
    ghost var waiting, taken, looks;
    results, timedOut, trail, waiting, taken, looks :=
      Traverse(RedirectingWeb(), "1080p", movieUrl, [DOWNLOAD], (n: nat) => false);
    NeverLate(RedirectingWeb(), "1080p", [DOWNLOAD], trail, waiting, taken);
    RedirectRunsAreChains(trail, waiting, taken);
    AllExpand(trail);
    NothingReported(trail);
  }

  lemma AllExpand(trail: seq<Visited>)
    requires FollowsTheChain(trail)
    ensures forall visit <- trail :: visit.verdict.Expand?
    ensures !EndedByDirectFile(trail)
  {
    forall visit <- trail
      ensures visit.verdict.Expand?
    {
      var i :| 0 <= i < |trail| && trail[i] == visit;
      assert trail[i].verdict == Expand([ChainEntry(i + 1)]);
    }
  }

  lemma NeverLate(
    web: Web, selected: string, roots: seq<Entry>, trail: seq<Visited>, waiting: seq<Entry>, taken: seq<Entry>)
    requires Underway(web, selected, roots, trail, waiting, taken) && !EndedLate(trail)
    ensures forall visit <- trail :: !visit.verdict.OutOfTime?
  {
    hide Visit, Earned, Covered, QueueFound, InTurn, FirstByKey, EntriesOf, Discovered;
    forall visit <- trail
      ensures !visit.verdict.OutOfTime?
    {
      var i :| 0 <= i < |trail| && trail[i] == visit;
      assert i < |trail| - 1 ==> !Stops(trail[i].verdict);
    }
  }

  lemma {:induction false} NothingReported(trail: seq<Visited>)
    requires forall visit <- trail :: visit.verdict.Expand?
    ensures ResultsOf(trail) == []
  {
    if trail != [] {
      NothingReported(trail[..|trail| - 1]);
      assert trail[|trail| - 1] in trail;
    }
  }

  /** Such trails exist at every length up to the node limit. */
  lemma RedirectsPassTheLimit(n: nat)
    requires n <= MAX_WORKFLOW_NODES
    ensures var web, trail := RedirectingWeb(), Chain(n);
            && TrailTrue(web, "1080p", trail) && Earned(web, [DOWNLOAD], trail)
            && Covered([DOWNLOAD], trail, [ChainEntry(n)])
            && (forall i :: 0 <= i < n ==> trail[i].entry.depth == i)
    ensures n == MAX_WORKFLOW_NODES ==> Chain(n)[n - 1].entry.depth > MAX_DEPTH
  {
    hide Visit, RedirectingWeb, TrailTrue, Earned, Covered;
    ChainIsTrue(n);
    ChainIsEarned(n);
    ChainIsCovered(n);
  }

  lemma ChainIsTrue(n: nat)
    ensures TrailTrue(RedirectingWeb(), "1080p", Chain(n))
  {
    hide Visit, RedirectingWeb;
    var trail := Chain(n);
    forall i | 0 <= i < n
      ensures trail[i].verdict == Visit(RedirectingWeb(), "1080p", trail[i].entry, trail[i].verdict.OutOfTime?)
    {
      ChainVisit(i);
    }
    forall i, j | 0 <= i < j < n
      ensures KeyOf(trail[i].entry.action) != KeyOf(trail[j].entry.action)
    {
      assert |trail[i].entry.action.url| != |trail[j].entry.action.url|;
    }
  }

  lemma ChainIsEarned(n: nat)
    ensures Earned(RedirectingWeb(), [DOWNLOAD], Chain(n))
  {
    var trail := Chain(n);
    forall i | 0 <= i < n
      ensures FoundBy([DOWNLOAD], trail[..i], trail[i].entry)
    {
      if i > 0 {
        assert trail[..i][i - 1] == trail[i - 1];
        assert ChainEntry(i) in Successors(trail[i - 1].verdict);
      }
    }
  }

  lemma ChainIsCovered(n: nat)
    ensures Covered([DOWNLOAD], Chain(n), [ChainEntry(n)])
  {
    var trail, queue := Chain(n), [ChainEntry(n)];
    var covered := VisitedKeys(trail) + Keys(queue);
    forall i | 0 <= i <= n
      ensures KeyOf(ChainEntry(i).action) in covered
    {
      if i < n {
        assert trail[i] in trail;
      } else {
        assert ChainEntry(n) in queue;
      }
    }
    forall visit <- trail
      ensures Keys(Successors(visit.verdict)) <= covered
    {
      var i :| 0 <= i < n && trail[i] == visit;
      assert KeyOf(ChainEntry(i + 1).action) in covered;
    }
    assert ChainEntry(0) == DOWNLOAD;
    assert KeyOf(ChainEntry(0).action) in covered;
  }

  ghost predicate OfQuality(web: Web, selected: string, entries: seq<Entry>) {
    forall entry <- entries :: web.canonical(entry.quality) == web.canonical(selected)
  }

  lemma {:induction false} VisitedQuality(web: Web, selected: string, roots: seq<Entry>, trail: seq<Visited>, i: nat)
    requires TrailTrue(web, selected, trail) && Earned(web, roots, trail)
    requires !Unrestricted(web, selected) && OfQuality(web, selected, roots)
    requires i < |trail|
    ensures web.canonical(trail[i].entry.quality) == web.canonical(selected)
    decreases i
  {
    hide TrailTrue, Visit, Earned, Redirects;
    if trail[i].entry !in roots {
      var j := FoundEarlier(web, roots, trail, i);
      VisitedQuality(web, selected, roots, trail, j);
      VisitInTrail(web, selected, trail, trail[j]);
      VisitSound(web, selected, trail[j].entry, trail[j].verdict.OutOfTime?);
      assert NextSound(web, selected, trail[j].entry, trail[i].entry);
    }
  }

  /** When one quality is asked for, everything that is ever queued, whether it is visited, left waiting or
      dropped, carries it exactly if every root does, and then so does every visit and every report: the traversal
      never drifts to another quality. */
  lemma QualityNeverDrifts(web: Web, selected: string, roots: seq<Entry>, trail: seq<Visited>)
    requires TrailTrue(web, selected, trail) && Earned(web, roots, trail)
    requires !Unrestricted(web, selected)
    ensures OfQuality(web, selected, roots) <==>
              forall entry: Entry :: FoundBy(roots, trail, entry) ==> web.canonical(entry.quality) == web.canonical(selected)
    ensures OfQuality(web, selected, roots) ==>
              && (forall visit <- trail :: web.canonical(visit.entry.quality) == web.canonical(selected))
              && (forall result <- ResultsOf(trail) :: web.canonical(result.quality) == web.canonical(selected))
  {
    hide TrailTrue, Visit, Earned, ResultsOf;
    if OfQuality(web, selected, roots) {
      forall visit <- trail
        ensures web.canonical(visit.entry.quality) == web.canonical(selected)
      {
        var i :| 0 <= i < |trail| && trail[i] == visit;
        VisitedQuality(web, selected, roots, trail, i);
      }
      forall result <- ResultsOf(trail)
        ensures web.canonical(result.quality) == web.canonical(selected)
      {
        ReportsOf(trail, result);
        var visit :| visit in trail && result in Reported(visit.verdict);
        VisitInTrail(web, selected, trail, visit);
        VisitSound(web, selected, visit.entry, visit.verdict.OutOfTime?);
        assert ReportSound(web, visit.entry, result);
      }
      forall entry: Entry | FoundBy(roots, trail, entry)
        ensures web.canonical(entry.quality) == web.canonical(selected)
      {
        FoundQuality(web, selected, roots, trail, entry);
      }
    } else {
      var root :| root in roots && web.canonical(root.quality) != web.canonical(selected);
      assert FoundBy(roots, trail, root);
    }
  }

  lemma FoundQuality(web: Web, selected: string, roots: seq<Entry>, trail: seq<Visited>, entry: Entry)
    requires TrailTrue(web, selected, trail)
    requires !Unrestricted(web, selected) && OfQuality(web, selected, roots)
    requires forall visit <- trail :: web.canonical(visit.entry.quality) == web.canonical(selected)
    requires FoundBy(roots, trail, entry)
    ensures web.canonical(entry.quality) == web.canonical(selected)
  {
    hide TrailTrue, Visit, Redirects;
    if entry !in roots {
      var visit :| visit in trail && entry in Successors(visit.verdict);
      VisitInTrail(web, selected, trail, visit);
      VisitSound(web, selected, visit.entry, visit.verdict.OutOfTime?);
      assert NextSound(web, selected, visit.entry, entry);
    }
  }

  /** The roots of every page that is not a HubCloud page carry the wanted quality. */
  lemma OrdinaryRootsMatch(web: Web, selected: string, movieUrl: string, actions: seq<Action>)
    requires !Unrestricted(web, selected)
    requires web.hubcloudNext(movieUrl, actions).None?
    ensures OfQuality(web, selected, RootEntries(RootActions(web, selected, movieUrl, actions), selected))
    ensures forall root <- RootEntries(RootActions(web, selected, movieUrl, actions), selected) :: root.depth == 0
    ensures |RootActions(web, selected, movieUrl, actions)| <= MAX_QUALITY_LINKS
  {
    PickChooses(
      actions,
      (item: Action) => item.quality != "" && !web.isNavigation(item) && QualityMatches(web, item.quality, selected),
      MAX_QUALITY_LINKS);
    PickChooses(
      actions,
      (item: Action) => web.isDownload(item) && (item.quality == "" || QualityMatches(web, item.quality, selected)),
      MAX_QUALITY_LINKS);
    var roots := RootActions(web, selected, movieUrl, actions);
    forall entry <- RootEntries(roots, selected)
      ensures web.canonical(entry.quality) == web.canonical(selected)
    {
      var i :| 0 <= i < |roots| && entry == RootEntry(roots[i], selected);
      assert roots[i] in roots;
    }
  }
}
