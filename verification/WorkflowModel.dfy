/** The link-following workflow: actions found on pages, what a visit to one of them comes to, and how
    actions are picked, merged and ordered. Pages, responses, the clock and the label patterns are given by
    an arbitrary web. */
module WorkflowModel {
  import opened Wrappers
  import opened StableSorting

  const MAX_QUALITY_LINKS := 12
  const MAX_ACTIONS_PER_PAGE := 18
  const MAX_DEPTH := 8
  const MAX_WORKFLOW_NODES := 24

  datatype Action = Action(
    url: string, caption: string, sourcePage: string, reason: string, quality: string, verb: string, state: string)

  /** What identifies a visit. The quality is not part of it. */
  datatype Key = Key(url: string, verb: string, sourcePage: string, state: string)

  function KeyOf(action: Action): Key {
    Key(action.url, action.verb, action.sourcePage, action.state)
  }

  /** Two actions are one visit exactly if they ask for the same address in the same way, from the same page and with the
      same state, whatever their captions, reasons and qualities are. */
  lemma SameVisit(a: Action, b: Action)
    ensures KeyOf(a) == KeyOf(b) <==>
              b == a.(caption := b.caption, reason := b.reason, quality := b.quality)
  {
  }

  datatype Entry = Entry(action: Action, depth: nat, quality: string)

  datatype Response = Response(status: int, contentType: string, failed: bool)

  datatype Page = Page(html: string, response: Response, next: string)

  datatype Rendering = Unavailable(reason: string) | Rendered(failed: bool, html: string, navigationUrl: string)

  datatype Blocker = Blocker(kind: string, message: string)

  /** Everything the workflow learns from outside: fetching, rendering, the direct-download control, header
      inspection, and the patterns applied to labels, addresses and pages. */
  datatype Web = Web(
    fetch: Action -> Page,
    render: string -> Rendering,
    directDownload: string -> string,
    inspect: string -> Response,
    parse: (string, string) -> seq<Action>,
    blockerOf: string -> Option<Blocker>,
    needsRendering: (string, seq<Action>) -> bool,
    hasDirectButton: string -> bool,
    hubcloudNext: (string, seq<Action>) -> Option<seq<Action>>,
    sameResource: (string, string) -> bool,
    isDownload: Action -> bool,
    isNavigation: Action -> bool,
    isStatic: Action -> bool,
    priority: Action -> nat,
    canonical: string -> string,
    everyQuality: string -> bool,
    messengerHost: string -> bool,
    unsafePackage: (Response, string) -> bool,
    mediaNamed: (Response, string) -> bool)

  // ----- the evidence for a final file -----

  predicate HasPrefix(s: string, prefix: string) {
    prefix <= s
  }

  predicate Mentions(s: string, word: string) {
    exists i :: 0 <= i <= |s| && word <= s[i..]
  }

  /** A response counts as a final file only on a 2xx status, not from a messenger host, without an application
      package name, and with a media or archive type; a generic binary type also needs a media file name. */
  predicate FinalFile(web: Web, response: Response, url: string) {
    && 200 <= response.status < 300
    && !web.messengerHost(url)
    && !web.unsafePackage(response, url)
    && response.contentType != "" && !Mentions(response.contentType, "html")
    && (|| HasPrefix(response.contentType, "video/")
        || HasPrefix(response.contentType, "audio/")
        || response.contentType == "application/zip"
        || (response.contentType == "application/octet-stream" && web.mediaNamed(response, url)))
  }

  predicate Redirects(status: int) {
    status in {301, 302, 303, 307, 308}
  }

  /** The redirects are the moved and see-other statuses, without those about caches and proxies. */
  lemma RedirectStatuses(status: int)
    ensures Redirects(status) <==> 300 < status < 309 && !(304 <= status <= 306)
  {
  }

  // ----- qualities -----

  /** No quality is asked for, or all are. */
  predicate Unrestricted(web: Web, selected: string) {
    selected == "" || web.everyQuality(selected)
  }

  predicate QualityMatches(web: Web, quality: string, selected: string) {
    Unrestricted(web, selected) || web.canonical(quality) == web.canonical(selected)
  }

  // ----- picking, merging and ordering -----

  /** Picking and merging tell actions apart by key and quality. */
  function Identity(action: Action): (Key, string) {
    (KeyOf(action), action.quality)
  }

  predicate Contains(actions: seq<Action>, action: Action) {
    exists other <- actions :: Identity(other) == Identity(action)
  }

  /** The first actions, at most `limit`, that satisfy the test and repeat no identity. */
  function Pick(actions: seq<Action>, test: Action -> bool, limit: nat): seq<Action> {
    if actions == [] then []
    else
      var chosen := Pick(actions[..|actions| - 1], test, limit);
      var action := actions[|actions| - 1];
      if |chosen| < limit && test(action) && !Contains(chosen, action) then chosen + [action] else chosen
  }

  predicate Any(action: Action) {
    true
  }

  /** The actions of both lists, without repetitions. */
  function Merge(first: seq<Action>, second: seq<Action>): seq<Action> {
    Pick(first + second, Any, |first| + |second|)
  }

  /** Download-like, labelled or static actions if there are any, else whatever is not plain navigation. */
  function BranchActions(web: Web, actions: seq<Action>): seq<Action> {
    var direct := Pick(
      actions,
      (item: Action) => item.verb != "GET" || web.isDownload(item) || item.quality != "" || web.isStatic(item),
      MAX_ACTIONS_PER_PAGE);
    var candidates := if direct != [] then direct
      else Pick(actions, (item: Action) => item.verb != "GET" || !web.isNavigation(item), MAX_ACTIONS_PER_PAGE);
    StableSort(candidates, web.priority)
  }

  // ----- results -----

  datatype Status = Success | Blocked | Partial

  datatype Result = Result(
    quality: string, source: string, pageUrl: string, finalUrl: Option<string>, status: Status,
    blockedBy: string, message: string)

  const FORM_MESSAGE := "Form detected; it was not submitted automatically."
  const NO_FILE_MESSAGE := "No verified final file response."
  const LATE_MESSAGE := "Workflow time limit reached before this branch could be rendered."
  const FILE_MESSAGE := "Verified final file response."
  const DEPTH_MESSAGE := "Workflow depth limit reached before a final file response."
  const TIME_LIMIT_MESSAGE := "Workflow time limit reached before all branches could be inspected."
  const NODE_LIMIT_MESSAGE := "Workflow node limit reached before all branches could be inspected."

  function Base(entry: Entry): Result {
    Result(entry.quality, entry.action.caption, entry.action.url, None, Partial, "", NO_FILE_MESSAGE)
  }

  function BlockedBy(base: Result, blocker: Blocker): Result {
    base.(status := Blocked, blockedBy := blocker.kind, message := blocker.message)
  }

  function Found(base: Result, url: string): Result {
    base.(finalUrl := Some(url), status := Success, message := FILE_MESSAGE)
  }

  // ----- one visit -----

  /** What a visit comes to: a result and on to the next, a result that ends the whole traversal because time
      is up or because a direct file was found, or new entries. */
  datatype Verdict =
    | Leaf(result: Result)
    | OutOfTime(result: Result)
    | DirectFile(result: Result)
    | Expand(next: seq<Entry>)

  function Visit(web: Web, selected: string, entry: Entry, late: bool): Verdict {
    var action := entry.action;
    if action.verb != "GET" then
      Leaf(Base(entry).(message := FORM_MESSAGE))
    else
      var page := web.fetch(action);
      if late then
        OutOfTime(Base(entry).(message := LATE_MESSAGE))
      else if FinalFile(web, page.response, action.url) then
        var found := Found(Base(entry), action.url);
        if web.priority(action) == 0 then DirectFile(found) else Leaf(found)
      else if Redirects(page.response.status) && page.next != "" then
        var target := Action(page.next, action.caption + " → HTTP redirect", action.url, "HTTP Location header",
          entry.quality, "GET", "");
        Expand([Entry(target, entry.depth + 1, entry.quality)])
      else if page.html != "" && web.blockerOf(page.html).Some? then
        Leaf(BlockedBy(Base(entry), web.blockerOf(page.html).value))
      else
        VisitPage(web, selected, entry, page)
  }

  function VisitPage(web: Web, selected: string, entry: Entry, page: Page): Verdict {
    var action := entry.action;
    var found := if page.html != "" then web.parse(action.url, page.html) else [];
    if web.needsRendering(page.html, found) || page.response.status == 202 then
      match web.render(action.url)
      case Unavailable(reason) =>
        VisitActions(web, selected, entry, page, found, Base(entry).(message := "Browser rendering unavailable: " + reason))
      case Rendered(failed, html, navigationUrl) =>
        if failed || html == "" then
          VisitActions(web, selected, entry, page, found, Base(entry))
        else if web.blockerOf(html).Some? then
          Leaf(BlockedBy(Base(entry), web.blockerOf(html).value))
        else
          var base := if navigationUrl != "" then navigationUrl else action.url;
          VisitActions(web, selected, entry, page, Merge(found, web.parse(base, html)), Base(entry))
    else
      VisitActions(web, selected, entry, page, found, Base(entry))
  }

  /** The direct-download control first, then the actions themselves, within the depth limit. */
  function VisitActions(
      web: Web, selected: string, entry: Entry, page: Page, actions: seq<Action>, base: Result): Verdict {
    var direct := if web.hasDirectButton(page.html) then web.directDownload(entry.action.url) else "";
    if direct != "" && FinalFile(web, web.inspect(direct), direct) then
      DirectFile(Found(base, direct).(source := "Browser direct download"))
    else if page.response.failed && actions == [] then
      Leaf(base)
    else if entry.depth >= MAX_DEPTH then
      Leaf(base.(message := DEPTH_MESSAGE))
    else
      var next := NextActions(web, selected, entry.action, actions);
      if next == [] then Leaf(base)
      else Expand(seq(|next|, i requires 0 <= i < |next| => EntryFor(next[i], entry)))
  }

  function NextActions(web: Web, selected: string, action: Action, actions: seq<Action>): seq<Action> {
    var branch := match web.hubcloudNext(action.url, actions)
      case Some(next) => next
      case None => BranchActions(web, actions);
    var elsewhere := Filter(branch, (item: Action) => !web.sameResource(item.url, action.url));
    if Unrestricted(web, selected) then elsewhere
    else Filter(elsewhere, (item: Action) => item.quality == "" || QualityMatches(web, item.quality, selected))
  }

  function EntryFor(action: Action, from: Entry): Entry {
    Entry(action, from.depth + 1, if action.quality != "" then action.quality else from.quality)
  }

  // ----- the roots -----

  /** The branches of the movie page: its own next step for a HubCloud page, else labelled links of the wanted
      quality, else download links that do not carry another quality. */
  function RootActions(web: Web, selected: string, movieUrl: string, actions: seq<Action>): seq<Action> {
    match web.hubcloudNext(movieUrl, actions)
    case Some(next) => next
    case None =>
      var labelled := Pick(
        actions,
        (item: Action) => item.quality != "" && !web.isNavigation(item) && QualityMatches(web, item.quality, selected),
        MAX_QUALITY_LINKS);
      if labelled != [] then labelled
      else Pick(
        actions,
        (item: Action) => web.isDownload(item) && (item.quality == "" || QualityMatches(web, item.quality, selected)),
        MAX_QUALITY_LINKS)
  }

  function RootEntry(action: Action, selected: string): Entry {
    Entry(action, 0, if action.quality != "" then action.quality else if selected != "" then selected else "Unknown quality")
  }

  function RootEntries(roots: seq<Action>, selected: string): seq<Entry> {
    seq(|roots|, i requires 0 <= i < |roots| => RootEntry(roots[i], selected))
  }

  // ----- the overall status -----

  /** The status of a whole analysis, as its last branch computes it. */
  function Overall(results: seq<Result>): Status {
    if results == [] then Partial
    else if exists r <- results :: r.status == Success then Success
    else if exists r <- results :: r.status == Blocked then
      (if |Filter(results, (r: Result) => r.status == Blocked)| == |results| then Blocked else Partial)
    else Partial
  }
}
