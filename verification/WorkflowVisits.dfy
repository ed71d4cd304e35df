/** What a visit comes to, said of the page it fetched and of the actions that page offers. */
module WorkflowVisits {
  import opened Wrappers
  import opened Collections
  import opened StableSorting
  import opened WorkflowModel
  import opened WorkflowHelpers

  // ----- what a page offers -----

  function OnServer(web: Web, action: Action): seq<Action> {
    if web.fetch(action).html != "" then web.parse(action.url, web.fetch(action).html) else []
  }

  /** The page is opened in a browser as well. */
  predicate Opened(web: Web, action: Action) {
    web.needsRendering(web.fetch(action).html, OnServer(web, action)) || web.fetch(action).response.status == 202
  }

  predicate Usable(rendering: Rendering) {
    rendering.Rendered? && !rendering.failed && rendering.html != ""
  }

  function InBrowser(web: Web, action: Action): seq<Action> {
    if Opened(web, action) && Usable(web.render(action.url)) then
      var page := web.render(action.url);
      web.parse(if page.navigationUrl != "" then page.navigationUrl else action.url, page.html)
    else []
  }

  /** The page, as fetched or as opened in the browser, is one that blocks. */
  ghost predicate Blocks(web: Web, action: Action, blocker: Blocker) {
    var html := web.fetch(action).html;
    if html != "" && web.blockerOf(html).Some? then web.blockerOf(html) == Some(blocker)
    else Opened(web, action) && Usable(web.render(action.url)) && web.blockerOf(web.render(action.url).html) == Some(blocker)
  }

  /** The actions offered: the server's and then the browser's, each identity once, if the browser had a page to
      show, and the server's as they are if not. */
  ghost predicate Offers(web: Web, action: Action, actions: seq<Action>) {
    var all := OnServer(web, action) + InBrowser(web, action);
    if Opened(web, action) && Usable(web.render(action.url)) then
      exists at :: FirstFew(all, Any, |all|, actions, at)
    else actions == all
  }

  // ----- where to go on -----

  /** Forms, downloads, actions with a quality and static links. */
  predicate Direct(web: Web, action: Action) {
    action.verb != "GET" || web.isDownload(action) || action.quality != "" || web.isStatic(action)
  }

  /** Only if a page has no such action do others count, as long as they are not plain navigation. */
  predicate Suits(web: Web, actions: seq<Action>, action: Action) {
    Direct(web, action) || ((forall other <- actions :: !Direct(web, other)) && !web.isNavigation(action))
  }

  function Suiting(web: Web, actions: seq<Action>): Action -> bool {
    action => Suits(web, actions, action)
  }

  /** In the order of the hosts' priorities, and in the order given within one. */
  ghost predicate ByHost(web: Web, given: seq<Action>, ordered: seq<Action>) {
    && multiset(ordered) == multiset(given)
    && Sorted(ordered, web.priority)
    && forall level: nat :: OfPriority(ordered, web.priority, level) == OfPriority(given, web.priority, level)
  }

  /** A HubCloud page's own step, or the first suitable actions by host. */
  ghost predicate Branches(web: Web, action: Action, actions: seq<Action>, branch: seq<Action>) {
    match web.hubcloudNext(action.url, actions)
    case Some(step) => branch == step
    case None => exists chosen, at ::
      FirstFew(actions, Suiting(web, actions), 18, chosen, at) && ByHost(web, chosen, branch)
  }

  /** It leads elsewhere, and its quality, if it has one, is the one asked for. */
  predicate Wanted(web: Web, selected: string, from: Action, action: Action) {
    && !web.sameResource(action.url, from.url)
    && (|| selected == "" || web.everyQuality(selected) || action.quality == ""
        || web.canonical(action.quality) == web.canonical(selected))
  }

  function Wanting(web: Web, selected: string, from: Action): Action -> bool {
    action => Wanted(web, selected, from, action)
  }

  /** Where a visit goes on: the wanted ones of the branch, all of them, as they come. */
  ghost predicate Onward(web: Web, selected: string, from: Action, actions: seq<Action>, next: seq<Action>) {
    exists branch, at ::
      Branches(web, from, actions, branch) && Picks(branch, Wanting(web, selected, from), next, at)
  }

  // ----- it does -----

  lemma OffersMerged(web: Web, action: Action)
    ensures Opened(web, action) && Usable(web.render(action.url)) ==>
              Offers(web, action, Merge(OnServer(web, action), InBrowser(web, action)))
    ensures !(Opened(web, action) && Usable(web.render(action.url))) ==> Offers(web, action, OnServer(web, action))
  {
    var all := OnServer(web, action) + InBrowser(web, action);
    var at := PickIsFirstFew(all, Any, |all|);
    hide OnServer, FirstFew;
    if !(Opened(web, action) && Usable(web.render(action.url))) {
      assert OnServer(web, action) + [] == OnServer(web, action);
    }
  }

  lemma FirstFewAlike(
    actions: seq<Action>, test: Action -> bool, other: Action -> bool, limit: nat, chosen: seq<Action>, at: seq<nat>)
    requires FirstFew(actions, test, limit, chosen, at)
    requires forall action <- actions :: test(action) <==> other(action)
    ensures FirstFew(actions, other, limit, chosen, at)
  {
    hide NoRepeats, Excused;
    assert forall k :: 0 <= k < |at| ==> chosen[k] == actions[at[k]] && actions[at[k]] in actions;
  }

  /** Among the first few there is one exactly if there is one. */
  lemma FirstFewOfNone(actions: seq<Action>, test: Action -> bool, limit: nat, chosen: seq<Action>, at: seq<nat>)
    requires FirstFew(actions, test, limit, chosen, at) && limit > 0
    ensures chosen == [] <==> forall action <- actions :: !test(action)
  {
    if chosen == [] {
      forall action <- actions
        ensures !test(action)
      {
        var i: nat :| i < |actions| && actions[i] == action;
        assert test(actions[i]) ==> i in at || Excused(actions[i], i, limit, chosen, at);
      }
    } else {
      assert chosen[0] == actions[at[0]];
    }
  }

  lemma BranchesMean(web: Web, action: Action, actions: seq<Action>)
    requires web.hubcloudNext(action.url, actions).None?
    ensures Branches(web, action, actions, BranchActions(web, actions))
  {
    hide FirstFew, ByHost, StableSort, Pick;
    var suits := Suiting(web, actions);
    var isDirect := (item: Action) => item.verb != "GET" || web.isDownload(item) || item.quality != "" || web.isStatic(item);
    var direct := Pick(actions, isDirect, MAX_ACTIONS_PER_PAGE);
    var at := PickIsFirstFew(actions, isDirect, MAX_ACTIONS_PER_PAGE);
    FirstFewOfNone(actions, isDirect, MAX_ACTIONS_PER_PAGE, direct, at);
    if direct != [] {
      FirstFewAlike(actions, isDirect, suits, MAX_ACTIONS_PER_PAGE, direct, at);
      SortedByHost(web, direct);
      assert FirstFew(actions, suits, MAX_ACTIONS_PER_PAGE, direct, at)
          && ByHost(web, direct, BranchActions(web, actions));
    } else {
      var isOther := (item: Action) => item.verb != "GET" || !web.isNavigation(item);
      var others := Pick(actions, isOther, MAX_ACTIONS_PER_PAGE);
      at := PickIsFirstFew(actions, isOther, MAX_ACTIONS_PER_PAGE);
      FirstFewAlike(actions, isOther, suits, MAX_ACTIONS_PER_PAGE, others, at);
      SortedByHost(web, others);
      assert FirstFew(actions, suits, MAX_ACTIONS_PER_PAGE, others, at)
          && ByHost(web, others, BranchActions(web, actions));
    }
  }

  lemma SortedByHost(web: Web, given: seq<Action>)
    ensures ByHost(web, given, StableSort(given, web.priority))
  {
    StableSortSorts(given, web.priority);
    forall level: nat
      ensures OfPriority(StableSort(given, web.priority), web.priority, level) == OfPriority(given, web.priority, level)
    {
      StableSortIsStable(given, web.priority, level);
    }
  }

  lemma {:induction false} FilterTwice(items: seq<Action>, p: Action -> bool, q: Action -> bool, both: Action -> bool)
    requires forall x :: both(x) <==> p(x) && q(x)
    ensures Filter(Filter(items, p), q) == Filter(items, both)
  {
    if items != [] {
      var front, last := items[..|items| - 1], items[|items| - 1];
      FilterTwice(front, p, q, both);
      var kept := Filter(front, p);
      assert (kept + [last])[..|kept|] == kept;
      assert kept + [] == kept;
    }
  }

  lemma {:induction false} FilterAlike(items: seq<Action>, p: Action -> bool, q: Action -> bool)
    requires forall x :: p(x) <==> q(x)
    ensures Filter(items, p) == Filter(items, q)
  {
    if items != [] {
      FilterAlike(items[..|items| - 1], p, q);
    }
  }

  lemma OnwardMeans(web: Web, selected: string, from: Action, actions: seq<Action>)
    ensures Onward(web, selected, from, actions, NextActions(web, selected, from, actions))
  {
    hide Branches, BranchActions, Filter, Picks;
    var branch := match web.hubcloudNext(from.url, actions)
      case Some(next) => next
      case None => BranchActions(web, actions);
    BranchIsBranch(web, from, actions, branch);
    var wanted := Wanting(web, selected, from);
    var elsewhere := (item: Action) => !web.sameResource(item.url, from.url);
    if Unrestricted(web, selected) {
      FilterAlike(branch, elsewhere, wanted);
    } else {
      FilterTwice(
        branch, elsewhere, (item: Action) => item.quality == "" || QualityMatches(web, item.quality, selected), wanted);
    }
    assert NextActions(web, selected, from, actions) == Filter(branch, wanted);
    var at := FilterPicks(branch, wanted);
  }

  lemma BranchIsBranch(web: Web, from: Action, actions: seq<Action>, branch: seq<Action>)
    requires branch == match web.hubcloudNext(from.url, actions)
                       case Some(next) => next
                       case None => BranchActions(web, actions)
    ensures Branches(web, from, actions, branch)
  {
    hide FirstFew, ByHost, BranchActions;
    if web.hubcloudNext(from.url, actions).None? {
      BranchesMean(web, from, actions);
    }
  }

  // ----- what a visit comes to -----

  /** The visit got a page to go through: it is no form, no final file and no redirect. */
  predicate GotPage(web: Web, action: Action) {
    && action.verb == "GET"
    && !FinalFile(web, web.fetch(action).response, action.url)
    && !(Redirects(web.fetch(action).response.status) && web.fetch(action).next != "")
  }

  /** The control that starts a download in the browser leads to a final file. */
  predicate Controlled(web: Web, action: Action) {
    && web.hasDirectButton(web.fetch(action).html) && web.directDownload(action.url) != ""
    && FinalFile(web, web.inspect(web.directDownload(action.url)), web.directDownload(action.url))
  }

  /** One entry for each action to go on with, in order, one deeper, with its own quality or else the page's. */
  ghost predicate Entries(entry: Entry, next: seq<Action>, entries: seq<Entry>) {
    && |entries| == |next|
    && forall i :: 0 <= i < |next| ==>
         && entries[i].action == next[i] && entries[i].depth == entry.depth + 1
         && entries[i].quality == if next[i].quality == "" then entry.quality else next[i].quality
  }

  /** A page with these actions, from which these are the ways on, comes to this. */
  ghost predicate ComesTo(web: Web, entry: Entry, actions: seq<Action>, next: seq<Action>, verdict: Verdict) {
    if Controlled(web, entry.action) then
      verdict == DirectFile(Result(entry.quality, "Browser direct download", entry.action.url,
        Some(web.directDownload(entry.action.url)), Success, "", FILE_MESSAGE))
    else if (web.fetch(entry.action).response.failed && actions == []) || entry.depth >= 8 || next == [] then
      verdict.Leaf? && OpenEnd(entry, verdict.result)
    else verdict.Expand? && Entries(entry, next, verdict.next)
  }

  /** Neither a file nor a blocker was found. */
  predicate OpenEnd(entry: Entry, result: Result) {
    && result.status == Partial && result.finalUrl == None && result.blockedBy == ""
    && result.quality == entry.quality && result.source == entry.action.caption && result.pageUrl == entry.action.url
  }

  lemma ActionsComeTo(web: Web, selected: string, entry: Entry, actions: seq<Action>, base: Result)
    requires OpenEnd(entry, base)
    ensures ComesTo(web, entry, actions, NextActions(web, selected, entry.action, actions),
                    VisitActions(web, selected, entry, web.fetch(entry.action), actions, base))
  {
    hide NextActions, FinalFile;
  }

  lemma PageComesTo(web: Web, selected: string, entry: Entry) returns (actions: seq<Action>)
    requires forall blocker :: !Blocks(web, entry.action, blocker)
    requires web.fetch(entry.action).html == "" || web.blockerOf(web.fetch(entry.action).html).None?
    ensures Offers(web, entry.action, actions)
    ensures ComesTo(web, entry, actions, NextActions(web, selected, entry.action, actions),
                    VisitPage(web, selected, entry, web.fetch(entry.action)))
  {
    hide NextActions, ComesTo, VisitActions, Offers, Merge;
    var action, found := entry.action, OnServer(web, entry.action);
    var base := Base(entry);
    OffersMerged(web, action);
    if Opened(web, action) && Usable(web.render(action.url)) {
      actions := Merge(found, InBrowser(web, action));
      var shown := web.blockerOf(web.render(action.url).html);
      assert shown.Some? ==> Blocks(web, action, shown.value);
    } else {
      actions := found;
      if Opened(web, action) && web.render(action.url).Unavailable? {
        base := base.(message := "Browser rendering unavailable: " + web.render(action.url).reason);
      }
    }
    ActionsComeTo(web, selected, entry, actions, base);
  }

  /** A timely visit that got a page which does not block goes on exactly if there is somewhere to go: with one
      entry for each wanted action of the branch, in order. It ends there only with a file found through the
      download control, on a failed page without actions, at the depth limit, or for want of such an action. */
  lemma VisitGoesOn(web: Web, selected: string, entry: Entry) returns (actions: seq<Action>, next: seq<Action>)
    requires GotPage(web, entry.action) && forall blocker :: !Blocks(web, entry.action, blocker)
    ensures Offers(web, entry.action, actions) && Onward(web, selected, entry.action, actions, next)
    ensures ComesTo(web, entry, actions, next, Visit(web, selected, entry, false))
  {
    hide FinalFile, VisitPage, Offers, Onward, ComesTo, NextActions;
    NoBlocker(web, entry.action);
    actions := PageComesTo(web, selected, entry);
    next := NextActions(web, selected, entry.action, actions);
    OnwardMeans(web, selected, entry.action, actions);
  }

  lemma NoBlocker(web: Web, action: Action)
    requires forall blocker :: !Blocks(web, action, blocker)
    ensures web.fetch(action).html == "" || web.blockerOf(web.fetch(action).html).None?
  {
    var html := web.fetch(action).html;
    if html != "" && web.blockerOf(html).Some? {
      assert Blocks(web, action, web.blockerOf(html).value);
    }
  }

  /** A visit is blocked exactly if it got a page and that page, as fetched or as the browser shows it, blocks. */
  lemma BlockedExactly(web: Web, selected: string, entry: Entry)
    ensures var verdict := Visit(web, selected, entry, false);
            && (verdict.Leaf? && verdict.result.status == Blocked <==>
                  GotPage(web, entry.action) && exists blocker :: Blocks(web, entry.action, blocker))
            && (forall blocker :: GotPage(web, entry.action) && Blocks(web, entry.action, blocker) ==>
                  verdict == Leaf(Result(entry.quality, entry.action.caption, entry.action.url, None, Blocked,
                                         blocker.kind, blocker.message)))
  {
    if GotPage(web, entry.action) {
      if blocker :| Blocks(web, entry.action, blocker) {
        BlockedPage(web, selected, entry, blocker);
      } else {
        var actions, next := VisitGoesOn(web, selected, entry);
      }
    } else {
      hide FinalFile, VisitPage;
    }
  }

  lemma BlockedPage(web: Web, selected: string, entry: Entry, blocker: Blocker)
    requires GotPage(web, entry.action) && Blocks(web, entry.action, blocker)
    ensures Visit(web, selected, entry, false)
            == Leaf(Result(entry.quality, entry.action.caption, entry.action.url, None, Blocked,
                           blocker.kind, blocker.message))
    ensures forall other :: Blocks(web, entry.action, other) ==> other == blocker
  {
    hide FinalFile, VisitActions;
  }

  /** What a visit comes to before there is a page to go through: a form is left alone, a late visit ends the
      traversal, a final file is reported and ends it only at the best priority, and a redirect is followed. */
  lemma VisitStops(web: Web, selected: string, entry: Entry, late: bool)
    requires late || !GotPage(web, entry.action)
    ensures var action := entry.action;
            var verdict := Visit(web, selected, entry, late);
            var page := web.fetch(action);
            if action.verb != "GET" then
              verdict.Leaf? && OpenEnd(entry, verdict.result) && verdict.result.message == FORM_MESSAGE
            else if late then
              verdict.OutOfTime? && OpenEnd(entry, verdict.result) && verdict.result.message == LATE_MESSAGE
            else if FinalFile(web, page.response, action.url) then
              && Stopped(verdict)
                 == [Result(entry.quality, action.caption, action.url, Some(action.url), Success, "", FILE_MESSAGE)]
              && (verdict.DirectFile? <==> web.priority(action) == 0)
            else
              && verdict.Expand? && |verdict.next| == 1
              && verdict.next[0].action.url == page.next && verdict.next[0].action.verb == "GET"
              && verdict.next[0].action.sourcePage == action.url && verdict.next[0].action.state == ""
              && verdict.next[0].action.quality == entry.quality
              && verdict.next[0].depth == entry.depth + 1 && verdict.next[0].quality == entry.quality
  {
    hide FinalFile, VisitPage;
  }

  function Stopped(verdict: Verdict): seq<Result> {
    match verdict
    case Leaf(result) => [result]
    case DirectFile(result) => [result]
    case OutOfTime(_) => []
    case Expand(_) => []
  }

  /** The entries a page leads to are suitable, wanted and no more than the limit, and unless the limit cut the branch
      short, no suitable and wanted action of the page is missed. */
  lemma WantedActionsAreTaken(
    web: Web, selected: string, from: Action, actions: seq<Action>, branch: seq<Action>, next: seq<Action>, at: seq<nat>)
    requires web.hubcloudNext(from.url, actions).None?
    requires Branches(web, from, actions, branch) && Picks(branch, Wanting(web, selected, from), next, at)
    ensures |next| <= |branch| <= 18
    ensures forall action <- next :: action in actions && Suits(web, actions, action) && Wanted(web, selected, from, action)
    ensures |branch| < 18 ==>
              forall action <- actions :: Suits(web, actions, action) && Wanted(web, selected, from, action) ==>
                Contains(next, action)
  {
    var chosen, places :| FirstFew(actions, Suiting(web, actions), 18, chosen, places)
                          && ByHost(web, chosen, branch);
    PlacesWithin(at, |branch|);
    SameMembers(chosen, branch);
    hide OfPriority, Suits, Wanted, NoRepeats;
    forall action <- next
      ensures action in actions && Suits(web, actions, action) && Wanted(web, selected, from, action)
    {
      var k :| 0 <= k < |next| && next[k] == action;
      assert action in branch && action in chosen;
      var j :| 0 <= j < |chosen| && chosen[j] == action;
    }
    if |branch| < 18 {
      forall action <- actions | Suits(web, actions, action) && Wanted(web, selected, from, action)
        ensures Contains(next, action)
      {
        Taken(web, selected, from, actions, chosen, places, branch, next, at, action);
      }
    }
  }

  lemma {:induction false} PlacesWithin(at: seq<nat>, limit: nat)
    requires forall k :: 0 <= k < |at| ==> at[k] < limit
    requires forall j, k :: 0 <= j < k < |at| ==> at[j] < at[k]
    ensures |at| <= limit
  {
    if at != [] {
      PlacesWithin(at[..|at| - 1], at[|at| - 1]);
    }
  }

  lemma Taken(
    web: Web, selected: string, from: Action, actions: seq<Action>, chosen: seq<Action>, places: seq<nat>,
    branch: seq<Action>, next: seq<Action>, at: seq<nat>, action: Action)
    requires FirstFew(actions, Suiting(web, actions), 18, chosen, places)
    requires |chosen| < 18 && multiset(chosen) == multiset(branch)
    requires Picks(branch, Wanting(web, selected, from), next, at)
    requires action in actions && Suits(web, actions, action) && Wanted(web, selected, from, action)
    ensures Contains(next, action)
  {
    hide Suits, NoRepeats, Wanted;
    SameMembers(chosen, branch);
    var i: nat :| i < |actions| && actions[i] == action;
    assert i in places || Excused(actions[i], i, 18, chosen, places);
    var k :| 0 <= k < |chosen| && Identity(chosen[k]) == Identity(action);
    WantedAlike(web, selected, from, action, chosen[k]);
    assert chosen[k] in branch;
    var j: nat :| j < |branch| && branch[j] == chosen[k];
    assert j in at;
    var m :| 0 <= m < |at| && at[m] == j;
    assert next[m] == chosen[k];
  }

  lemma WantedAlike(web: Web, selected: string, from: Action, action: Action, other: Action)
    requires Wanted(web, selected, from, action) && Identity(other) == Identity(action)
    ensures Wanted(web, selected, from, other)
  {
    assert KeyOf(other) == KeyOf(action) && other.quality == action.quality;
    assert other.url == action.url;
  }

  // ----- final files and roots -----

  /** What makes a response a final file, type by type: video, audio and zip by type alone, other binary data with a
      media name, and nothing else. */
  lemma FileTypes(web: Web, response: Response, url: string)
    ensures var kind := response.contentType;
            var media := "video/" <= kind || "audio/" <= kind;
            var acceptable :=
              response.status / 100 == 2 && !web.messengerHost(url) && !web.unsafePackage(response, url);
            && (!acceptable ==> !FinalFile(web, response, url))
            && (acceptable && media && 'h' !in kind ==> FinalFile(web, response, url))
            && (acceptable && kind == "application/zip" ==> FinalFile(web, response, url))
            && (acceptable && kind == "application/octet-stream" ==>
                  (FinalFile(web, response, url) <==> web.mediaNamed(response, url)))
            && (!media && kind != "application/zip" && kind != "application/octet-stream" ==>
                  !FinalFile(web, response, url))
  {
    hide Mentions;
    NoHtml(response.contentType);
    NoHtml("application/zip");
    NoHtml("application/octet-stream");
    if response.contentType == "application/octet-stream" {
      BinaryIsNoMedia(response.contentType);
    }
  }

  lemma BinaryIsNoMedia(kind: string)
    requires kind == "application/octet-stream"
    ensures !("video/" <= kind) && !("audio/" <= kind) && kind != "application/zip" && kind != ""
  {
    assert kind[0] == 'a' && kind[1] == 'p' && |kind| == 24;
    assert "video/"[0] == 'v' && "audio/"[1] == 'u';
  }

  lemma NoHtml(s: string)
    ensures 'h' !in s ==> !Mentions(s, "html")
  {
    if i :| 0 <= i <= |s| && "html" <= s[i..] {
      assert "html"[0] == s[i..][0] == s[i];
    }
  }

  /** A page is no final file, whatever else its type says. */
  lemma PagesAreNoFiles(web: Web, response: Response, url: string, before: string, after: string)
    requires response.contentType == before + "html" + after
    ensures !FinalFile(web, response, url)
  {
    assert response.contentType[|before|..] == "html" + after;
    assert "html" <= response.contentType[|before|..];
  }

  /** The labelled links of the wanted quality. */
  predicate Labelled(web: Web, selected: string, action: Action) {
    && action.quality != "" && !web.isNavigation(action)
    && (selected == "" || web.everyQuality(selected) || web.canonical(action.quality) == web.canonical(selected))
  }

  /** The download links that carry no other quality. */
  predicate Downloadable(web: Web, selected: string, action: Action) {
    && web.isDownload(action)
    && (action.quality == "" || selected == "" || web.everyQuality(selected)
        || web.canonical(action.quality) == web.canonical(selected))
  }

  predicate RootSuits(web: Web, selected: string, actions: seq<Action>, action: Action) {
    if exists other <- actions :: Labelled(web, selected, other) then Labelled(web, selected, action)
    else Downloadable(web, selected, action)
  }

  function RootSuiting(web: Web, selected: string, actions: seq<Action>): Action -> bool {
    action => RootSuits(web, selected, actions, action)
  }

  /** The traversal starts from a HubCloud page's own step, else from the first twelve links that suit, in the
      order of the page: labelled ones if there are any. Each starts at depth 0 with its own quality, or the one asked
      for, or none known. */
  lemma RootsMean(web: Web, selected: string, movieUrl: string, actions: seq<Action>) returns (at: seq<nat>)
    ensures var roots := RootActions(web, selected, movieUrl, actions);
            var entries := RootEntries(roots, selected);
            && (if web.hubcloudNext(movieUrl, actions).Some? then web.hubcloudNext(movieUrl, actions) == Some(roots)
                else FirstFew(actions, RootSuiting(web, selected, actions), 12, roots, at))
            && |entries| == |roots|
            && forall k :: 0 <= k < |roots| ==>
                 && entries[k].action == roots[k] && entries[k].depth == 0
                 && (roots[k].quality != "" ==> entries[k].quality == roots[k].quality)
                 && (roots[k].quality == "" && selected != "" ==> entries[k].quality == selected)
                 && (roots[k].quality == "" && selected == "" ==> entries[k].quality == "Unknown quality")
  {
    hide FirstFew, Pick;
    var suits := RootSuiting(web, selected, actions);
    var isLabelled := (item: Action) =>
      item.quality != "" && !web.isNavigation(item) && QualityMatches(web, item.quality, selected);
    var labelled := Pick(actions, isLabelled, MAX_QUALITY_LINKS);
    at := PickIsFirstFew(actions, isLabelled, MAX_QUALITY_LINKS);
    FirstFewOfNone(actions, isLabelled, MAX_QUALITY_LINKS, labelled, at);
    if labelled != [] {
      FirstFewAlike(actions, isLabelled, suits, MAX_QUALITY_LINKS, labelled, at);
    } else {
      var isDownload := (item: Action) =>
        web.isDownload(item) && (item.quality == "" || QualityMatches(web, item.quality, selected));
      at := PickIsFirstFew(actions, isDownload, MAX_QUALITY_LINKS);
      FirstFewAlike(actions, isDownload, suits, MAX_QUALITY_LINKS, Pick(actions, isDownload, MAX_QUALITY_LINKS), at);
    }
  }
}
