/** The search of a small public link graph for a configured delivery address. Pages and redirects are given
    by an arbitrary site. */
module DeliveryDiscovery {
  import opened Collections
  import opened Wrappers
  import opened StableSorting
  import opened Arithmetic

  const MAX_LINKS := 12

  /** What inspecting an address says: it cannot be fetched, or where it ends and whether it is a file. */
  datatype Inspection = Unreachable | Inspected(finalUrl: string, directFile: bool)

  /** What fetching a page says: nothing usable, or its visible links in document order. */
  datatype Fetched = NotUsable | Links(targets: seq<string>)

  datatype Site = Site(inspect: string -> Inspection, fetch: string -> Fetched, matches: string -> bool)

  datatype Hop = Hop(url: string, depth: nat)

  /** The configured depth; a missing or zero one means two, and it is kept between zero and three. */
  function DepthLimit(configured: int): nat {
    var wanted := if configured == 0 then 2 else configured;
    if wanted < 0 then 0 else if wanted > 3 then 3 else wanted
  }

  /** Two levels unless configured, and never fewer than none or more than three. */
  lemma DepthLimits(configured: int)
    ensures configured == 0 ==> DepthLimit(configured) == 2
    ensures configured < 0 ==> DepthLimit(configured) == 0
    ensures 1 <= configured <= 3 ==> DepthLimit(configured) == configured
    ensures configured > 3 ==> DepthLimit(configured) == 3
  {
  }

  // ----- candidates -----

  /** One address appears on the page before the other does. */
  predicate AppearsFirst(targets: seq<string>, a: string, b: string) {
    exists i :: 0 <= i < |targets| && targets[i] == a && b !in targets[..i + 1]
  }

  /** The new links of a page, without repetitions, each where it first appears. */
  method NewLinks(targets: seq<string>, visited: set<string>) returns (candidates: seq<string>)
    ensures Distinct(candidates)
    ensures forall url :: url in candidates <==> url in targets && url !in visited
    ensures forall i, j :: 0 <= i < j < |candidates| ==> AppearsFirst(targets, candidates[i], candidates[j])
  {
    candidates := [];
    for k := 0 to |targets|
      invariant Distinct(candidates)
      invariant forall url :: url in candidates <==> url in targets[..k] && url !in visited
      invariant forall i, j :: 0 <= i < j < |candidates| ==> AppearsFirst(targets, candidates[i], candidates[j])
    {
      assert targets[..k + 1] == targets[..k] + [targets[k]];
      if targets[k] !in visited && targets[k] !in candidates {
        forall i | 0 <= i < |candidates|
          ensures AppearsFirst(targets, candidates[i], targets[k])
        {
          assert candidates[i] in targets[..k];
          var n :| 0 <= n < k && targets[..k][n] == candidates[i];
          assert targets[..n + 1] <= targets[..k];
        }
        candidates := candidates + [targets[k]];
      }
    }
    assert targets[..|targets|] == targets;
  }

  function RankOf(site: Site): string -> nat {
    (url: string) => if site.matches(url) then 0 else 1
  }

  /** The links to follow: matches first, at most twelve. What is left out comes after everything followed: a
      match only after matches, and within one kind in the order of the page. */
  method BestLinks(site: Site, targets: seq<string>, visited: set<string>) returns (best: seq<string>)
    ensures |best| <= 12 && Distinct(best)
    ensures forall url <- best :: url in targets && url !in visited
    ensures |best| < 12 ==> forall url <- targets :: url !in visited ==> url in best
    ensures forall i, j :: 0 <= i < j < |best| ==> FollowsRightly(site, targets, best[i], best[j])
    ensures forall url <- best, other <- targets :: other !in visited && other !in best ==>
              FollowsRightly(site, targets, url, other)
  {
    hide AppearsFirst;
    var candidates := NewLinks(targets, visited);
    var rank := RankOf(site);
    var before := (a: string, b: string) => AppearsFirst(targets, a, b);
    StableSortSorts(candidates, rank);
    StableSortKeepsOrder(candidates, rank, before);
    var sorted := StableSort(candidates, rank);
    SameMembers(candidates, sorted);
    DistinctTransfers(candidates, sorted);
    hide StableSort;
    best := if |sorted| > MAX_LINKS then sorted[..MAX_LINKS] else sorted;
    forall i, j | 0 <= i < j < |sorted|
      ensures FollowsRightly(site, targets, sorted[i], sorted[j])
    {
      assert rank(sorted[i]) <= rank(sorted[j]);
      assert rank(sorted[i]) == rank(sorted[j]) ==> before(sorted[i], sorted[j]);
    }
    LeftOutFollows(site, targets, sorted, |best|);
  }

  /** The second address is rightly taken after the first. */
  predicate FollowsRightly(site: Site, targets: seq<string>, a: string, b: string) {
    || (site.matches(a) && !site.matches(b))
    || (site.matches(a) == site.matches(b) && AppearsFirst(targets, a, b))
  }

  lemma LeftOutFollows(site: Site, targets: seq<string>, sorted: seq<string>, taken: nat)
    requires taken <= |sorted|
    requires forall i, j :: 0 <= i < j < |sorted| ==> FollowsRightly(site, targets, sorted[i], sorted[j])
    ensures forall url <- sorted[..taken], other <- sorted :: other !in sorted[..taken] ==>
              FollowsRightly(site, targets, url, other)
  {
    forall url <- sorted[..taken], other <- sorted | other !in sorted[..taken]
      ensures FollowsRightly(site, targets, url, other)
    {
      var i :| 0 <= i < taken && sorted[..taken][i] == url;
      var j :| 0 <= j < |sorted| && sorted[j] == other;
      assert forall k :: 0 <= k < taken ==> sorted[..taken][k] == sorted[k];
      assert j >= taken;
    }
  }

  // ----- how much work is left -----

  /** The most pages that can be processed because of one hop: itself, and twelve links with theirs. */
  function Work(depth: nat, limit: nat): nat
    decreases limit - depth
  {
    if depth >= limit then 1 else 1 + MAX_LINKS * Work(depth + 1, limit)
  }

  ghost function TotalWork(queue: seq<Hop>, limit: nat): nat {
    if queue == [] then 0 else Work(queue[0].depth, limit) + TotalWork(queue[1..], limit)
  }

  lemma {:induction false} TotalWorkAdds(a: seq<Hop>, b: seq<Hop>, limit: nat)
    ensures TotalWork(a + b, limit) == TotalWork(a, limit) + TotalWork(b, limit)
  {
    if a == [] {
      assert a + b == b;
    } else {
      assert (a + b)[1..] == a[1..] + b;
      TotalWorkAdds(a[1..], b, limit);
    }
  }

  lemma {:induction false} TotalWorkOfLevel(hops: seq<Hop>, depth: nat, limit: nat)
    requires forall hop <- hops :: hop.depth == depth
    ensures TotalWork(hops, limit) == |hops| * Work(depth, limit)
  {
    if hops != [] {
      TotalWorkOfLevel(hops[1..], depth, limit);
    }
  }

  /** Replacing a hop by at most twelve hops one deeper does less than the hop's own work. */
  lemma ExpandingCosts(hop: Hop, next: seq<Hop>, limit: nat)
    requires hop.depth < limit && |next| <= MAX_LINKS
    requires forall other <- next :: other.depth == hop.depth + 1
    ensures TotalWork(next, limit) + 1 <= Work(hop.depth, limit)
  {
    TotalWorkOfLevel(next, hop.depth + 1, limit);
    hide TotalWork;
    var each := Work(hop.depth + 1, limit);
    assert Work(hop.depth, limit) == 1 + MAX_LINKS * each;
    ProductGrows(|next|, MAX_LINKS, each);
  }

  /** With depth three, the most the configuration allows: 1 + 12 + 144 + 1728. */
  lemma WorkIsBounded(limit: nat)
    requires limit <= 3
    ensures Work(0, limit) <= 1 + 12 + 144 + 1728
  {
    assert Work(3, limit) == 1;
    assert Work(2, limit) <= 13;
    assert Work(1, limit) <= 157;
  }

  // ----- what there is to find -----

  /** The links of a page that can be inspected, is no file and can be fetched. */
  function LinksOf(site: Site, url: string): seq<string> {
    var inspection := site.inspect(url);
    if inspection.Inspected? && !inspection.directFile && site.fetch(url).Links? then site.fetch(url).targets else []
  }

  /** The address can be reached from the start by following exactly so many links. */
  ghost predicate Within(site: Site, start: string, url: string, clicks: nat)
    decreases clicks
  {
    if clicks == 0 then url == start
    else exists from: string :: Within(site, start, from, clicks - 1) && url in LinksOf(site, from)
  }

  predicate Delivers(site: Site, url: string) {
    site.inspect(url).Inspected? && site.matches(site.inspect(url).finalUrl)
  }

  // ----- the invariants of the search -----

  ghost predicate Ordered(queue: seq<Hop>) {
    forall i, j :: 0 <= i < j < |queue| ==> queue[i].depth <= queue[j].depth <= queue[i].depth + 1
  }

  ghost predicate InOrder(processed: seq<Hop>, queue: seq<Hop>) {
    && (forall i, j :: 0 <= i < j < |processed| ==> processed[i].depth <= processed[j].depth)
    && (forall done <- processed, waiting <- queue :: done.depth <= waiting.depth)
  }

  ghost predicate SameUrls(processed: seq<Hop>, trail: seq<string>, visited: set<string>) {
    && |trail| == |processed|
    && (forall i :: 0 <= i < |trail| ==> trail[i] == processed[i].url)
    && Distinct(trail)
    && (forall url :: url in visited <==> url in trail)
  }

  /** Everything ever enqueued is still waiting or its address has been visited. */
  ghost predicate Accounted(enqueued: set<Hop>, queue: seq<Hop>, visited: set<string>) {
    && (forall hop <- queue :: hop in enqueued)
    && (forall hop <- enqueued :: hop in queue || hop.url in visited)
  }

  /** An address is processed at the least depth at which it was ever enqueued. */
  ghost predicate Least(processed: seq<Hop>, enqueued: set<Hop>) {
    && (forall done <- processed :: done in enqueued)
    && (forall done <- processed, hop <- enqueued :: done.url == hop.url ==> done.depth <= hop.depth)
  }

  ghost predicate Grounded(site: Site, start: string, limit: nat, enqueued: set<Hop>) {
    && Hop(start, 0) in enqueued
    && (forall hop <- enqueued :: hop.depth <= limit && Within(site, start, hop.url, hop.depth))
  }

  ghost predicate Known(enqueued: set<Hop>, url: string, depth: nat) {
    exists hop <- enqueued :: hop.url == url && hop.depth <= depth
  }

  /** The links of a page were all enqueued no deeper than one below it, or twelve of them were. */
  ghost predicate Followed(targets: seq<string>, enqueued: set<Hop>, depth: nat) {
    || (forall url <- targets :: Known(enqueued, url, depth))
    || (exists best: seq<string> :: TwelveOf(best, targets, enqueued, depth))
  }

  ghost predicate TwelveOf(best: seq<string>, targets: seq<string>, enqueued: set<Hop>, depth: nat) {
    && |best| == MAX_LINKS && Distinct(best)
    && (forall url <- best :: url in targets && Known(enqueued, url, depth))
  }

  ghost predicate AllFollowed(site: Site, limit: nat, processed: seq<Hop>, enqueued: set<Hop>) {
    forall done <- processed :: done.depth < limit ==> Followed(LinksOf(site, done.url), enqueued, done.depth + 1)
  }

  /** Where the address ends, if it can be inspected. */
  function Ends(site: Site, url: string): Option<string> {
    match site.inspect(url)
    case Unreachable => None
    case Inspected(finalUrl, _) => Some(finalUrl)
  }

  ghost predicate NoneDelivers(site: Site, processed: seq<Hop>) {
    forall done <- processed :: !Delivers(site, done.url)
  }

  ghost predicate Underway(
    site: Site, start: string, limit: nat, processed: seq<Hop>, queue: seq<Hop>, enqueued: set<Hop>,
    trail: seq<string>, visited: set<string>)
  {
    && Ordered(queue) && InOrder(processed, queue)
    && SameUrls(processed, trail, visited)
    && Accounted(enqueued, queue, visited)
    && Least(processed, enqueued)
    && Grounded(site, start, limit, enqueued)
    && AllFollowed(site, limit, processed, enqueued)
  }

  lemma RestOrdered(queue: seq<Hop>)
    requires queue != [] && Ordered(queue)
    ensures Ordered(queue[1..])
    ensures forall hop <- queue[1..] :: queue[0].depth <= hop.depth <= queue[0].depth + 1
  {
    forall hop <- queue[1..]
      ensures queue[0].depth <= hop.depth <= queue[0].depth + 1
    {
      var i :| 0 <= i < |queue[1..]| && queue[1..][i] == hop;
      assert queue[i + 1] == hop;
    }
  }

  lemma RestInOrder(processed: seq<Hop>, front: Hop, rest: seq<Hop>)
    requires InOrder(processed, [front] + rest) && forall hop <- rest :: front.depth <= hop.depth
    ensures InOrder(processed, rest) && InOrder(processed + [front], rest)
    ensures forall done <- processed + [front] :: done.depth <= front.depth
  {
    assert front in [front] + rest && forall hop <- rest :: hop in [front] + rest;
    forall done <- processed
      ensures done.depth <= front.depth
    {
    }
  }

  lemma RestKeeps(processed: seq<Hop>, queue: seq<Hop>)
    requires queue != [] && Ordered(queue) && InOrder(processed, queue)
    ensures Ordered(queue[1..])
    ensures InOrder(processed, queue[1..]) && InOrder(processed + [queue[0]], queue[1..])
    ensures forall hop <- queue[1..] :: queue[0].depth <= hop.depth <= queue[0].depth + 1
    ensures forall done <- processed + [queue[0]] :: done.depth <= queue[0].depth
  {
    hide Ordered, InOrder;
    RestOrdered(queue);
    assert queue == [queue[0]] + queue[1..];
    RestInOrder(processed, queue[0], queue[1..]);
  }

  lemma PopAccounts(enqueued: set<Hop>, queue: seq<Hop>, visited: set<string>)
    requires queue != [] && Accounted(enqueued, queue, visited)
    ensures Accounted(enqueued, queue[1..], visited + {queue[0].url})
    ensures queue[0] in enqueued
  {
    forall hop <- enqueued
      ensures hop in queue[1..] || hop.url in visited + {queue[0].url}
    {
      assert queue == [queue[0]] + queue[1..];
    }
  }

  /** An address that has been visited already is passed over. */
  lemma SkipKeeps(
    site: Site, start: string, limit: nat, processed: seq<Hop>, queue: seq<Hop>, enqueued: set<Hop>,
    trail: seq<string>, visited: set<string>)
    requires queue != [] && queue[0].url in visited
    requires Underway(site, start, limit, processed, queue, enqueued, trail, visited)
    ensures Underway(site, start, limit, processed, queue[1..], enqueued, trail, visited)
  {
    RestKeeps(processed, queue);
    PopAccounts(enqueued, queue, visited);
    assert visited + {queue[0].url} == visited;
  }

  /** The front of the queue is processed now, at the least depth it was enqueued at. */
  lemma VisitIsLeast(processed: seq<Hop>, queue: seq<Hop>, enqueued: set<Hop>, visited: set<string>)
    requires queue != [] && queue[0].url !in visited
    requires Ordered(queue) && Accounted(enqueued, queue, visited) && Least(processed, enqueued)
    requires forall done <- processed :: done.url in visited
    ensures Least(processed + [queue[0]], enqueued)
  {
  }

  lemma VisitIsNew(processed: seq<Hop>, hop: Hop, trail: seq<string>, visited: set<string>)
    requires SameUrls(processed, trail, visited)
    ensures forall done <- processed :: done.url in visited
    ensures hop.url !in visited ==> SameUrls(processed + [hop], trail + [hop.url], visited + {hop.url})
  {
    forall done <- processed
      ensures done.url in visited
    {
      var i :| 0 <= i < |processed| && processed[i] == done;
      assert trail[i] in trail;
    }
  }

  // ----- following a page's links -----

  function Deeper(urls: seq<string>, depth: nat): (hops: seq<Hop>)
    ensures |hops| == |urls| && forall i :: 0 <= i < |urls| ==> hops[i] == Hop(urls[i], depth)
  {
    seq(|urls|, i requires 0 <= i < |urls| => Hop(urls[i], depth))
  }

  ghost function AllOf(hops: seq<Hop>): set<Hop> {
    set hop <- hops :: hop
  }

  lemma EnqueueOrders(processed: seq<Hop>, queue: seq<Hop>, best: seq<string>, depth: nat)
    requires Ordered(queue) && InOrder(processed, queue)
    requires forall done <- processed :: done.depth <= depth
    requires forall hop <- queue :: depth <= hop.depth <= depth + 1
    ensures Ordered(queue + Deeper(best, depth + 1))
    ensures InOrder(processed, queue + Deeper(best, depth + 1))
  {
    var next := Deeper(best, depth + 1);
    forall i | 0 <= i < |queue + next|
      ensures depth <= (queue + next)[i].depth <= depth + 1
      ensures i >= |queue| ==> (queue + next)[i].depth == depth + 1
    {
      if i < |queue| {
        assert (queue + next)[i] == queue[i] && queue[i] in queue;
      } else {
        assert (queue + next)[i] == next[i - |queue|];
      }
    }
  }

  lemma EnqueueAccounts(
    site: Site, start: string, limit: nat, processed: seq<Hop>, queue: seq<Hop>, enqueued: set<Hop>,
    visited: set<string>, url: string, best: seq<string>, depth: nat)
    requires Accounted(enqueued, queue, visited) && Least(processed, enqueued)
    requires Grounded(site, start, limit, enqueued)
    requires forall done <- processed :: done.depth <= depth
    requires (best != [] ==> depth < limit) && Hop(url, depth) in enqueued
    requires forall other <- best :: other in LinksOf(site, url)
    ensures var next := Deeper(best, depth + 1);
            && Accounted(enqueued + AllOf(next), queue + next, visited)
            && Least(processed, enqueued + AllOf(next))
            && Grounded(site, start, limit, enqueued + AllOf(next))
  {
    hide Within, LinksOf;
    var next := Deeper(best, depth + 1);
    forall hop <- next
      ensures hop.depth == depth + 1 && Within(site, start, hop.url, depth + 1)
    {
      var i :| 0 <= i < |next| && next[i] == hop;
      assert best[i] in best;
      OneMoreClick(site, start, url, hop.url, depth);
    }
  }

  lemma OneMoreClick(site: Site, start: string, url: string, target: string, clicks: nat)
    requires Within(site, start, url, clicks) && target in LinksOf(site, url)
    ensures Within(site, start, target, clicks + 1)
  {
  }

  lemma FollowedStays(targets: seq<string>, enqueued: set<Hop>, more: set<Hop>, depth: nat)
    requires Followed(targets, enqueued, depth)
    ensures Followed(targets, enqueued + more, depth)
  {
    forall url | Known(enqueued, url, depth)
      ensures Known(enqueued + more, url, depth)
    {
      var hop :| hop in enqueued && hop.url == url && hop.depth <= depth;
      assert hop in enqueued + more;
    }
    if best :| TwelveOf(best, targets, enqueued, depth) {
      assert TwelveOf(best, targets, enqueued + more, depth);
    }
  }

  lemma BestFollowed(
    processed: seq<Hop>, enqueued: set<Hop>, visited: set<string>, targets: seq<string>, best: seq<string>, depth: nat)
    requires Least(processed, enqueued)
    requires forall url <- visited :: exists done <- processed :: done.url == url && done.depth <= depth + 1
    requires |best| <= MAX_LINKS && Distinct(best)
    requires forall url <- best :: url in targets
    requires |best| < MAX_LINKS ==> forall url <- targets :: url !in visited ==> url in best
    ensures Followed(targets, enqueued + AllOf(Deeper(best, depth + 1)), depth + 1)
  {
    var next := Deeper(best, depth + 1);
    var all := enqueued + AllOf(next);
    forall url <- best
      ensures Known(all, url, depth + 1)
    {
      var i :| 0 <= i < |best| && best[i] == url;
      assert next[i] in next && next[i] in all;
    }
    forall url <- visited
      ensures Known(all, url, depth + 1)
    {
      var done :| done in processed && done.url == url && done.depth <= depth + 1;
      assert done in all;
    }
    if |best| == MAX_LINKS {
      assert TwelveOf(best, targets, all, depth + 1);
    }
  }

  lemma AllStayFollowed(site: Site, limit: nat, processed: seq<Hop>, hop: Hop, enqueued: set<Hop>, more: set<Hop>)
    requires AllFollowed(site, limit, processed, enqueued)
    requires hop.depth < limit ==> Followed(LinksOf(site, hop.url), enqueued + more, hop.depth + 1)
    ensures AllFollowed(site, limit, processed + [hop], enqueued + more)
  {
    forall done <- processed | done.depth < limit
      ensures Followed(LinksOf(site, done.url), enqueued + more, done.depth + 1)
    {
      FollowedStays(LinksOf(site, done.url), enqueued, more, done.depth + 1);
    }
  }

  /** Processing the front of the queue and enqueuing what was found there keeps the invariant. */
  lemma VisitKeeps(
    site: Site, start: string, limit: nat, processed: seq<Hop>, queue: seq<Hop>, enqueued: set<Hop>,
    trail: seq<string>, visited: set<string>, best: seq<string>)
    requires queue != [] && queue[0].url !in visited
    requires Underway(site, start, limit, processed, queue, enqueued, trail, visited)
    requires |best| <= MAX_LINKS && Distinct(best)
    requires forall url <- best :: url in LinksOf(site, queue[0].url)
    requires queue[0].depth >= limit ==> best == []
    requires queue[0].depth < limit && |best| < MAX_LINKS ==>
               forall url <- LinksOf(site, queue[0].url) :: url !in visited + {queue[0].url} ==> url in best
    ensures var next := Deeper(best, queue[0].depth + 1);
            Underway(site, start, limit, processed + [queue[0]], queue[1..] + next, enqueued + AllOf(next),
                     trail + [queue[0].url], visited + {queue[0].url})
  {
    hide Ordered, InOrder, SameUrls, Accounted, Least, Grounded, Followed, AllFollowed, Known,
      LinksOf, AllOf, Distinct, Deeper, Within;
    var hop := queue[0];
    var done, rest, seen := processed + [hop], queue[1..], visited + {hop.url};
    var next := Deeper(best, hop.depth + 1);
    RestKeeps(processed, queue);
    PopAccounts(enqueued, queue, visited);
    VisitIsNew(processed, hop, trail, visited);
    VisitIsLeast(processed, queue, enqueued, visited);
    EnqueueOrders(done, rest, best, hop.depth);
    assert hop == Hop(hop.url, hop.depth);
    EnqueueAccounts(site, start, limit, done, rest, enqueued, seen, hop.url, best, hop.depth);
    if hop.depth < limit {
      VisitedAreProcessed(done, trail + [hop.url], seen, hop.depth + 1);
      BestFollowed(done, enqueued, seen, LinksOf(site, hop.url), best, hop.depth);
    }
    AllStayFollowed(site, limit, processed, hop, enqueued, AllOf(next));
  }

  lemma VisitedAreProcessed(processed: seq<Hop>, trail: seq<string>, visited: set<string>, depth: nat)
    requires SameUrls(processed, trail, visited)
    requires forall done <- processed :: done.depth <= depth
    ensures forall url <- visited :: exists done <- processed :: done.url == url && done.depth <= depth
  {
    forall url <- visited
      ensures exists done <- processed :: done.url == url && done.depth <= depth
    {
      var i :| 0 <= i < |trail| && trail[i] == url;
      assert processed[i] in processed;
    }
  }

  // ----- the search -----

  /** What the search answers: the delivery address, or nothing, and the addresses it visited in order. */
  datatype Outcome = Outcome(found: Option<string>, trail: seq<string>)

  /** Every visited address is reached by as many links from the start as its depth, which is the least it was
      enqueued at; no address is visited twice, and shallower ones come first. */
  ghost predicate Visits(
    site: Site, start: string, limit: nat, trail: seq<string>, processed: seq<Hop>, enqueued: set<Hop>)
  {
    && Distinct(trail) && |trail| == |processed|
    && (forall i :: 0 <= i < |processed| ==> trail[i] == processed[i].url)
    && (forall i, j :: 0 <= i < j < |processed| ==> processed[i].depth <= processed[j].depth)
    && Least(processed, enqueued) && Grounded(site, start, limit, enqueued)
  }

  /** None of the visited addresses delivers, the ones above the limit were followed, and everything enqueued
      above the horizon was visited. */
  ghost predicate Swept(
    site: Site, limit: nat, horizon: nat, trail: seq<string>, processed: seq<Hop>, enqueued: set<Hop>)
  {
    && NoneDelivers(site, processed)
    && AllFollowed(site, limit, processed, enqueued)
    && (forall hop <- enqueued :: hop.depth < horizon ==> hop.url in trail)
  }

  /** The answer is where the last visited address ends, which has the configured shape; before it everything
      nearer the start was swept. */
  ghost predicate Finds(site: Site, limit: nat, answer: Outcome, processed: seq<Hop>, enqueued: set<Hop>) {
    var n := |processed| - 1;
    && n >= 0 && |answer.trail| == n + 1 && answer.found.Some?
    && Delivers(site, processed[n].url)
    && answer.found.value == site.inspect(processed[n].url).finalUrl
    && Swept(site, limit, processed[n].depth, answer.trail[..n], processed[..n], enqueued)
  }

  /** The answer has the configured shape, and any visited address that ends in that shape ends at the answer. */
  ghost predicate AnswersRightly(site: Site, answer: Outcome) {
    && (answer.found.Some? ==> site.matches(answer.found.value))
    && forall url <- answer.trail :: Ends(site, url).Some? && site.matches(Ends(site, url).value) ==>
         answer.found == Ends(site, url)
  }

  lemma NoneMatched(site: Site, processed: seq<Hop>, trail: seq<string>)
    requires NoneDelivers(site, processed) && |trail| == |processed|
    requires forall i :: 0 <= i < |trail| ==> trail[i] == processed[i].url
    ensures forall url <- trail :: Ends(site, url).Some? ==> !site.matches(Ends(site, url).value)
  {
    forall url <- trail
      ensures Ends(site, url).Some? ==> !site.matches(Ends(site, url).value)
    {
      var i :| 0 <= i < |trail| && trail[i] == url;
      assert processed[i] in processed;
    }
  }

  lemma StartKeeps(site: Site, start: string, limit: nat)
    ensures Underway(site, start, limit, [], [Hop(start, 0)], {Hop(start, 0)}, [], {})
    ensures TotalWork([Hop(start, 0)], limit) == Work(0, limit)
  {
    assert [Hop(start, 0)][1..] == [];
    assert TotalWork([], limit) == 0;
  }

  /** The work left shrinks with every pop, whatever is appended. */
  lemma WorkShrinks(queue: seq<Hop>, next: seq<Hop>, limit: nat)
    requires queue != [] && |next| <= MAX_LINKS
    requires queue[0].depth >= limit ==> next == []
    requires forall other <- next :: other.depth == queue[0].depth + 1
    ensures TotalWork(queue[1..] + next, limit) + 1 <= TotalWork(queue, limit)
  {
    TotalWorkAdds(queue[1..], next, limit);
    if queue[0].depth < limit {
      ExpandingCosts(queue[0], next, limit);
    } else {
      assert TotalWork(next, limit) == 0;
    }
  }

  method Discover(site: Site, start: string, configured: int)
    returns (answer: Outcome, ghost processed: seq<Hop>, ghost enqueued: set<Hop>)
    ensures Visits(site, start, DepthLimit(configured), answer.trail, processed, enqueued)
    ensures answer.found.Some? ==> Finds(site, DepthLimit(configured), answer, processed, enqueued)
    ensures answer.found.None? ==>
              Swept(site, DepthLimit(configured), DepthLimit(configured) + 1, answer.trail, processed, enqueued)
    ensures |answer.trail| <= Work(0, DepthLimit(configured)) <= 1 + 12 + 144 + 1728
    ensures AnswersRightly(site, answer)
  {
    hide Underway, Visits, Finds, Swept, NoneDelivers, TotalWork, Work, FollowsRightly, AppearsFirst,
      AnswersRightly;
    var limit := DepthLimit(configured);
    WorkIsBounded(limit);
    StartKeeps(site, start, limit);
    assert NoneDelivers(site, []) by { NothingDelivers(site); }
    var queue: seq<Hop>, visited: set<string>, trail: seq<string> := [Hop(start, 0)], {}, [];
    processed, enqueued := [], {Hop(start, 0)};
    while queue != []
      invariant Underway(site, start, limit, processed, queue, enqueued, trail, visited)
      invariant |processed| + TotalWork(queue, limit) <= Work(0, limit)
      invariant NoneDelivers(site, processed)
      decreases TotalWork(queue, limit)
    {
      ghost var before := queue;
      var hop := queue[0];
      WorkShrinks(before, [], limit);
      assert queue[1..] + [] == queue[1..];
      if hop.url in visited {
        SkipKeeps(site, start, limit, processed, queue, enqueued, trail, visited);
        queue := queue[1..];
        continue;
      }
      var inspection := site.inspect(hop.url);
      var best := [];
      if inspection.Inspected? && site.matches(inspection.finalUrl) {
        answer := Outcome(Some(inspection.finalUrl), trail + [hop.url]);
        FoundFinishes(site, start, limit, processed, queue, enqueued, trail, visited, answer);
        processed := processed + [hop];
        return;
      }
      if inspection.Inspected? && hop.depth < limit && !inspection.directFile {
        var page := site.fetch(hop.url);
        if page.Links? {
          best := BestLinks(site, page.targets, visited + {hop.url});
        }
      }
      LinksOfPage(site, hop.url);
      VisitKeeps(site, start, limit, processed, queue, enqueued, trail, visited, best);
      NoneDeliversYet(site, processed, hop);
      var next := Deeper(best, hop.depth + 1);
      WorkShrinks(before, next, limit);
      queue, visited, trail := queue[1..] + next, visited + {hop.url}, trail + [hop.url];
      processed, enqueued := processed + [hop], enqueued + AllOf(next);
    }
    answer := Outcome(None, trail);
    NoneFinishes(site, start, limit, processed, enqueued, trail, visited);
  }

  lemma FoundFinishes(
    site: Site, start: string, limit: nat, processed: seq<Hop>, queue: seq<Hop>, enqueued: set<Hop>,
    trail: seq<string>, visited: set<string>, answer: Outcome)
    requires queue != [] && queue[0].url !in visited && Delivers(site, queue[0].url)
    requires Underway(site, start, limit, processed, queue, enqueued, trail, visited) && NoneDelivers(site, processed)
    requires answer == Outcome(Some(site.inspect(queue[0].url).finalUrl), trail + [queue[0].url])
    ensures Visits(site, start, limit, answer.trail, processed + [queue[0]], enqueued)
    ensures Finds(site, limit, answer, processed + [queue[0]], enqueued)
    ensures |answer.trail| == |processed| + 1 && AnswersRightly(site, answer)
  {
    hide Ordered, InOrder, Accounted, Least, Grounded, Followed, AllFollowed, Within, NoneDelivers, Distinct;
    NoneMatched(site, processed, trail);
    LastVisit(site, start, limit, processed, queue, enqueued, trail, visited);
    var hop := queue[0];
    assert (processed + [hop])[..|processed|] == processed && (trail + [hop.url])[..|trail|] == trail;
  }

  lemma NoneFinishes(
    site: Site, start: string, limit: nat, processed: seq<Hop>, enqueued: set<Hop>, trail: seq<string>,
    visited: set<string>)
    requires Underway(site, start, limit, processed, [], enqueued, trail, visited) && NoneDelivers(site, processed)
    ensures Visits(site, start, limit, trail, processed, enqueued)
    ensures Swept(site, limit, limit + 1, trail, processed, enqueued)
    ensures |trail| == |processed| && AnswersRightly(site, Outcome(None, trail))
  {
    hide Ordered, InOrder, Accounted, Least, Grounded, Followed, AllFollowed, Within, NoneDelivers, Distinct;
    Finished(processed, enqueued, visited);
    NoneMatched(site, processed, trail);
  }

  lemma LinksOfPage(site: Site, url: string)
    ensures site.inspect(url).Inspected? && !site.inspect(url).directFile && site.fetch(url).Links? ==>
              LinksOf(site, url) == site.fetch(url).targets
    ensures !(site.inspect(url).Inspected? && !site.inspect(url).directFile && site.fetch(url).Links?) ==>
              LinksOf(site, url) == []
  {
  }

  lemma NothingDelivers(site: Site)
    ensures NoneDelivers(site, [])
  {
  }

  lemma NoneDeliversYet(site: Site, processed: seq<Hop>, hop: Hop)
    requires NoneDelivers(site, processed) && !Delivers(site, hop.url)
    ensures NoneDelivers(site, processed + [hop])
  {
  }

  lemma Finished(processed: seq<Hop>, enqueued: set<Hop>, visited: set<string>)
    requires InOrder(processed, []) && Accounted(enqueued, [], visited)
    ensures forall i, j :: 0 <= i < j < |processed| ==> processed[i].depth <= processed[j].depth
    ensures forall hop <- enqueued :: hop.url in visited
  {
  }

  /** The hop that ends the search is visited like any other. */
  lemma LastVisit(
    site: Site, start: string, limit: nat, processed: seq<Hop>, queue: seq<Hop>, enqueued: set<Hop>,
    trail: seq<string>, visited: set<string>)
    requires queue != [] && queue[0].url !in visited
    requires Underway(site, start, limit, processed, queue, enqueued, trail, visited)
    ensures SameUrls(processed + [queue[0]], trail + [queue[0].url], visited + {queue[0].url})
    ensures var done := processed + [queue[0]];
            forall i, j :: 0 <= i < j < |done| ==> done[i].depth <= done[j].depth
    ensures Least(processed + [queue[0]], enqueued)
    ensures forall hop <- enqueued :: hop.depth < queue[0].depth ==> hop.url in trail
  {
    hide Followed, Within;
    RestKeeps(processed, queue);
    PopAccounts(enqueued, queue, visited);
    VisitIsNew(processed, queue[0], trail, visited);
    VisitIsLeast(processed, queue, enqueued, visited);
  }

  // ----- the search is exact where no page has more than twelve different links -----

  function Different(urls: seq<string>): set<string> {
    set url <- urls :: url
  }

  ghost predicate Narrow(site: Site, start: string, limit: nat) {
    forall url, clicks: nat :: clicks < limit && Within(site, start, url, clicks) ==>
      |Different(LinksOf(site, url))| <= MAX_LINKS
  }

  lemma {:induction false} DifferentCounts(urls: seq<string>)
    requires Distinct(urls)
    ensures |Different(urls)| == |urls|
  {
    if urls != [] {
      var front, last := urls[..|urls| - 1], urls[|urls| - 1];
      assert urls == front + [last] && last !in front;
      DifferentCounts(front);
      forall url
        ensures url in Different(urls) <==> url in Different(front) + {last}
      {
        assert url in urls <==> url in front || url == last;
      }
      assert Different(urls) == Different(front) + {last};
    }
  }

  lemma {:induction false} SubsetFills(part: set<string>, whole: set<string>)
    requires part <= whole && |whole| <= |part|
    ensures part == whole
  {
    if url :| url in whole && url !in part {
      SubsetIsSmaller(part, whole - {url});
      assert false;
    }
  }

  /** On a page with at most twelve different links, every one of them is followed. */
  lemma NarrowIsFollowed(targets: seq<string>, enqueued: set<Hop>, depth: nat)
    requires Followed(targets, enqueued, depth) && |Different(targets)| <= MAX_LINKS
    ensures forall url <- targets :: Known(enqueued, url, depth)
  {
    hide Known;
    if best :| TwelveOf(best, targets, enqueued, depth) {
      DifferentCounts(best);
      SubsetFills(Different(best), Different(targets));
      forall url <- targets
        ensures Known(enqueued, url, depth)
      {
        assert url in Different(best);
      }
    }
  }

  ghost predicate Reached(processed: seq<Hop>, url: string, clicks: nat) {
    exists done <- processed :: done.url == url && done.depth <= clicks
  }

  lemma KnownIsReached(
    site: Site, limit: nat, horizon: nat, trail: seq<string>, processed: seq<Hop>, enqueued: set<Hop>, url: string,
    depth: nat)
    requires |trail| == |processed| && forall i :: 0 <= i < |processed| ==> trail[i] == processed[i].url
    requires Swept(site, limit, horizon, trail, processed, enqueued) && Least(processed, enqueued)
    requires Known(enqueued, url, depth) && depth < horizon
    ensures Reached(processed, url, depth)
  {
    hide AllFollowed, NoneDelivers;
    var hop :| hop in enqueued && hop.url == url && hop.depth <= depth;
    var i :| 0 <= i < |trail| && trail[i] == url;
    assert processed[i] in processed;
  }

  lemma {:induction false} NothingMissed(
    site: Site, start: string, limit: nat, horizon: nat, trail: seq<string>, processed: seq<Hop>, enqueued: set<Hop>,
    url: string, clicks: nat)
    requires |trail| == |processed| && forall i :: 0 <= i < |processed| ==> trail[i] == processed[i].url
    requires Swept(site, limit, horizon, trail, processed, enqueued) && Least(processed, enqueued)
    requires Hop(start, 0) in enqueued && Narrow(site, start, limit)
    requires clicks <= limit && clicks < horizon && Within(site, start, url, clicks)
    ensures Reached(processed, url, clicks)
    decreases clicks
  {
    hide Followed, Different, Least, NoneDelivers, LinksOf;
    if clicks == 0 {
      assert Known(enqueued, url, 0);
    } else {
      var from: string :| Within(site, start, from, clicks - 1) && url in LinksOf(site, from);
      NothingMissed(site, start, limit, horizon, trail, processed, enqueued, from, clicks - 1);
      var done :| done in processed && done.url == from && done.depth <= clicks - 1;
      NarrowIsFollowed(LinksOf(site, from), enqueued, done.depth + 1);
    }
    KnownIsReached(site, limit, horizon, trail, processed, enqueued, url, clicks);
  }

  /** On a narrow site nothing nearer the start than the horizon delivers. */
  lemma NothingNearer(
    site: Site, start: string, limit: nat, horizon: nat, trail: seq<string>, processed: seq<Hop>, enqueued: set<Hop>)
    requires |trail| == |processed| && forall i :: 0 <= i < |processed| ==> trail[i] == processed[i].url
    requires Swept(site, limit, horizon, trail, processed, enqueued) && Least(processed, enqueued)
    requires Hop(start, 0) in enqueued && Narrow(site, start, limit)
    ensures forall url, clicks: nat :: clicks <= limit && clicks < horizon && Within(site, start, url, clicks) ==>
              !Delivers(site, url)
  {
    hide AllFollowed, Narrow, Delivers, Within, Least;
    forall url, clicks: nat | clicks <= limit && clicks < horizon && Within(site, start, url, clicks)
      ensures !Delivers(site, url)
    {
      NothingMissed(site, start, limit, horizon, trail, processed, enqueued, url, clicks);
    }
  }

  /** Something delivers at exactly this distance from the start, and nothing does at a smaller one. */
  ghost predicate NearestDelivery(site: Site, start: string, url: string, clicks: nat) {
    && Within(site, start, url, clicks) && Delivers(site, url)
    && forall other, fewer: nat :: fewer < clicks && Within(site, start, other, fewer) ==> !Delivers(site, other)
  }

  /** On a narrow site the search finds something exactly when an address within the limit delivers, and then it
      stops at one as near to the start as any. */
  lemma SearchIsExact(
    site: Site, start: string, limit: nat, answer: Outcome, processed: seq<Hop>, enqueued: set<Hop>)
    requires Visits(site, start, limit, answer.trail, processed, enqueued)
    requires answer.found.Some? ==> Finds(site, limit, answer, processed, enqueued)
    requires answer.found.None? ==> Swept(site, limit, limit + 1, answer.trail, processed, enqueued)
    requires Narrow(site, start, limit)
    ensures answer.found.Some? <==>
              exists url, clicks: nat :: clicks <= limit && Within(site, start, url, clicks) && Delivers(site, url)
    ensures answer.found.Some? ==>
              && answer.trail != []
              && var url := answer.trail[|answer.trail| - 1];
              && answer.found.value == site.inspect(url).finalUrl
              && exists clicks: nat :: clicks <= limit && NearestDelivery(site, start, url, clicks)
  {
    hide Distinct, AllFollowed, Narrow, Delivers, Within;
    if answer.found.Some? {
      var n := |processed| - 1;
      var last := processed[n];
      assert last in processed && last in enqueued;
      assert Within(site, start, last.url, last.depth) && Delivers(site, last.url);
      NothingNearer(site, start, limit, last.depth, answer.trail[..n], processed[..n], enqueued);
      assert NearestDelivery(site, start, last.url, last.depth);
    } else {
      NothingNearer(site, start, limit, limit + 1, answer.trail, processed, enqueued);
    }
  }
}
