/** The bounded traversal of download branches: what it visits, what it reports, and when it is complete. */
module WorkflowTraversal {
  import opened Wrappers
  import opened Collections
  import opened StableSorting
  import opened WorkflowModel
  import opened WorkflowHelpers

  /** One visit: the entry, what it came to, and the entries left waiting at that moment. */
  datatype Visited = Visited(entry: Entry, verdict: Verdict, waiting: seq<Entry>)

  /** The result a visit reports, if it reports one. */
  function Reported(verdict: Verdict): seq<Result> {
    match verdict
    case Leaf(result) => [result]
    case OutOfTime(result) => [result]
    case DirectFile(result) => [result]
    case Expand(_) => []
  }

  ghost function ResultsOf(trail: seq<Visited>): seq<Result> {
    if trail == [] then []
    else ResultsOf(trail[..|trail| - 1]) + Reported(trail[|trail| - 1].verdict)
  }

  ghost function Keys(entries: seq<Entry>): set<Key> {
    set entry <- entries :: KeyOf(entry.action)
  }

  ghost function VisitedKeys(trail: seq<Visited>): set<Key> {
    set visit <- trail :: KeyOf(visit.entry.action)
  }

  function Successors(verdict: Verdict): seq<Entry> {
    if verdict.Expand? then verdict.next else []
  }

  predicate Stops(verdict: Verdict) {
    verdict.OutOfTime? || verdict.DirectFile?
  }

  /** Each visit is of a new key, comes to what its pages make of it, and only the last one may stop. */
  ghost predicate TrailTrue(web: Web, selected: string, trail: seq<Visited>) {
    && (forall i, j :: 0 <= i < j < |trail| ==> KeyOf(trail[i].entry.action) != KeyOf(trail[j].entry.action))
    && (forall i :: 0 <= i < |trail| ==>
          trail[i].verdict == Visit(web, selected, trail[i].entry, trail[i].verdict.OutOfTime?))
    && (forall i :: 0 <= i < |trail| - 1 ==> !Stops(trail[i].verdict))
  }

  /** An entry is a root or was found by one of the given visits. */
  ghost predicate FoundBy(roots: seq<Entry>, trail: seq<Visited>, entry: Entry) {
    entry in roots || exists visit <- trail :: entry in Successors(visit.verdict)
  }

  /** Every visited entry was found earlier, and no waiting entry had a better priority. */
  ghost predicate Earned(web: Web, roots: seq<Entry>, trail: seq<Visited>) {
    && (forall i :: 0 <= i < |trail| ==> FoundBy(roots, trail[..i], trail[i].entry))
    && (forall i :: 0 <= i < |trail| ==> forall other <- trail[i].waiting ::
          web.priority(trail[i].entry.action) <= web.priority(other.action))
  }

  /** Everything found so far has been visited or is waiting. */
  ghost predicate Covered(roots: seq<Entry>, trail: seq<Visited>, queue: seq<Entry>) {
    && Keys(roots) <= VisitedKeys(trail) + Keys(queue)
    && forall visit <- trail :: Keys(Successors(visit.verdict)) <= VisitedKeys(trail) + Keys(queue)
  }

  ghost predicate QueueFound(roots: seq<Entry>, trail: seq<Visited>, queue: seq<Entry>) {
    forall entry <- queue :: FoundBy(roots, trail, entry)
  }

  function LimitResult(movieUrl: string, timedOut: bool): Result {
    Result("Multiple qualities", "Workflow graph", movieUrl, None, Partial, "",
           if timedOut then TIME_LIMIT_MESSAGE else NODE_LIMIT_MESSAGE)
  }

  // ----- extending a trail by one visit -----

  lemma TrailGrows(web: Web, selected: string, trail: seq<Visited>, visit: Visited)
    requires TrailTrue(web, selected, trail)
    requires forall earlier <- trail :: !Stops(earlier.verdict)
    requires KeyOf(visit.entry.action) !in VisitedKeys(trail)
    requires visit.verdict == Visit(web, selected, visit.entry, visit.verdict.OutOfTime?)
    ensures TrailTrue(web, selected, trail + [visit])
    ensures VisitedKeys(trail + [visit]) == VisitedKeys(trail) + {KeyOf(visit.entry.action)}
    ensures ResultsOf(trail + [visit]) == ResultsOf(trail) + Reported(visit.verdict)
  {
    hide Visit;
    assert (trail + [visit])[..|trail|] == trail;
    forall i | 0 <= i < |trail|
      ensures KeyOf(trail[i].entry.action) in VisitedKeys(trail)
    {
      assert trail[i] in trail;
    }
  }

  lemma FoundByMore(roots: seq<Entry>, trail: seq<Visited>, visit: Visited, entry: Entry)
    ensures FoundBy(roots, trail, entry) ==> FoundBy(roots, trail + [visit], entry)
    ensures entry in Successors(visit.verdict) ==> FoundBy(roots, trail + [visit], entry)
  {
    if FoundBy(roots, trail, entry) && entry !in roots {
      var earlier :| earlier in trail && entry in Successors(earlier.verdict);
      assert earlier in trail + [visit];
    }
    assert visit in trail + [visit];
  }

  lemma EarnedGrows(web: Web, roots: seq<Entry>, trail: seq<Visited>, visit: Visited)
    requires Earned(web, roots, trail)
    requires FoundBy(roots, trail, visit.entry)
    requires forall other <- visit.waiting :: web.priority(visit.entry.action) <= web.priority(other.action)
    ensures Earned(web, roots, trail + [visit])
  {
    hide FoundBy;
    assert (trail + [visit])[..|trail|] == trail;
    assert forall i :: 0 <= i < |trail| ==> (trail + [visit])[..i] == trail[..i];
  }

  lemma CoveredGrows(roots: seq<Entry>, trail: seq<Visited>, visit: Visited, queue: seq<Entry>)
    requires Covered(roots, trail, [visit.entry] + queue)
    ensures Covered(roots, trail + [visit], queue + Successors(visit.verdict))
  {
    hide Successors;
    var after, more := trail + [visit], queue + Successors(visit.verdict);
    assert VisitedKeys(after) == VisitedKeys(trail) + {KeyOf(visit.entry.action)};
    assert Keys([visit.entry] + queue) == {KeyOf(visit.entry.action)} + Keys(queue);
    assert Keys(more) == Keys(queue) + Keys(Successors(visit.verdict));
    forall earlier <- after
      ensures Keys(Successors(earlier.verdict)) <= VisitedKeys(after) + Keys(more)
    {
      if earlier != visit {
        assert earlier in trail;
      }
    }
  }

  lemma SameKeys(a: seq<Entry>, b: seq<Entry>)
    requires multiset(a) == multiset(b)
    ensures Keys(a) == Keys(b)
  {
    SameMembers(a, b);
  }

  // ----- whose turn it is -----

  function HostPriority(web: Web): Entry -> nat {
    (entry: Entry) => web.priority(entry.action)
  }

  /** The entries that came off the queue, visited or passed over, and those waiting are together the ones found,
      and among entries of one priority they come off in the order in which they were found. */
  ghost predicate InTurn(web: Web, taken: seq<Entry>, waiting: seq<Entry>, found: seq<Entry>) {
    forall level: nat ::
      OfPriority(taken, HostPriority(web), level) + OfPriority(waiting, HostPriority(web), level)
      == OfPriority(found, HostPriority(web), level)
  }

  /** Everything found, in the order in which it was found. */
  ghost function Discovered(roots: seq<Entry>, trail: seq<Visited>): seq<Entry> {
    if trail == [] then roots
    else Discovered(roots, trail[..|trail| - 1]) + Successors(trail[|trail| - 1].verdict)
  }

  /** The first entry of each key. */
  ghost function FirstByKey(entries: seq<Entry>): seq<Entry> {
    if entries == [] then []
    else
      var front, last := FirstByKey(entries[..|entries| - 1]), entries[|entries| - 1];
      if KeyOf(last.action) in Keys(front) then front else front + [last]
  }

  ghost function EntriesOf(trail: seq<Visited>): seq<Entry> {
    if trail == [] then [] else EntriesOf(trail[..|trail| - 1]) + [trail[|trail| - 1].entry]
  }

  lemma {:induction false} EntriesHaveVisitedKeys(trail: seq<Visited>)
    ensures Keys(EntriesOf(trail)) == VisitedKeys(trail)
  {
    if trail != [] {
      var front, last := trail[..|trail| - 1], trail[|trail| - 1];
      EntriesHaveVisitedKeys(front);
      assert trail == front + [last];
      assert VisitedKeys(trail) == VisitedKeys(front) + {KeyOf(last.entry.action)};
      assert Keys(EntriesOf(front) + [last.entry]) == Keys(EntriesOf(front)) + {KeyOf(last.entry.action)};
    }
  }

  /** An entry comes off the queue. */
  lemma TakenInTurn(web: Web, taken: seq<Entry>, queue: seq<Entry>, found: seq<Entry>, best: Entry, rest: seq<Entry>)
    requires InTurn(web, taken, queue, found)
    requires forall level: nat ::
               OfPriority([best] + rest, HostPriority(web), level) == OfPriority(queue, HostPriority(web), level)
    ensures InTurn(web, taken + [best], rest, found)
  {
    forall level: nat
      ensures OfPriority(taken + [best], HostPriority(web), level) + OfPriority(rest, HostPriority(web), level)
              == OfPriority(found, HostPriority(web), level)
    {
      OfPriorityAppends(taken, [best], HostPriority(web), level);
      OfPriorityAppends([best], rest, HostPriority(web), level);
      hide OfPriority, HostPriority;
    }
  }

  /** A visit adds what it finds to the end of the queue. */
  lemma FoundInTurn(web: Web, taken: seq<Entry>, queue: seq<Entry>, roots: seq<Entry>, trail: seq<Visited>, visit: Visited)
    requires InTurn(web, taken, queue, Discovered(roots, trail))
    ensures InTurn(web, taken, queue + Successors(visit.verdict), Discovered(roots, trail + [visit]))
  {
    assert (trail + [visit])[..|trail|] == trail;
    var found, more := Discovered(roots, trail), Successors(visit.verdict);
    forall level: nat
      ensures OfPriority(taken, HostPriority(web), level) + OfPriority(queue + more, HostPriority(web), level)
              == OfPriority(found + more, HostPriority(web), level)
    {
      OfPriorityAppends(queue, more, HostPriority(web), level);
      OfPriorityAppends(found, more, HostPriority(web), level);
      hide OfPriority, HostPriority;
    }
  }

  lemma FirstVisit(taken: seq<Entry>, trail: seq<Visited>, visit: Visited)
    requires FirstByKey(taken) == EntriesOf(trail)
    ensures KeyOf(visit.entry.action) in VisitedKeys(trail) ==> FirstByKey(taken + [visit.entry]) == EntriesOf(trail)
    ensures KeyOf(visit.entry.action) !in VisitedKeys(trail) ==>
              FirstByKey(taken + [visit.entry]) == EntriesOf(trail + [visit])
  {
    EntriesHaveVisitedKeys(trail);
    assert (taken + [visit.entry])[..|taken|] == taken;
    assert (trail + [visit])[..|trail|] == trail;
  }

  /** The entry comes off the queue rightly: it is the first of the best priority. */
  ghost predicate ComesOff(web: Web, queue: seq<Entry>, best: Entry, rest: seq<Entry>) {
    && multiset(queue) == multiset([best] + rest)
    && (forall other <- rest :: web.priority(best.action) <= web.priority(other.action))
    && (forall level: nat ::
          OfPriority([best] + rest, HostPriority(web), level) == OfPriority(queue, HostPriority(web), level))
  }

  /** Take the best entry off the queue: the first of those with the best priority. The others keep their order
      within each priority. */
  method TakeBest(web: Web, queue: seq<Entry>) returns (best: Entry, rest: seq<Entry>)
    requires queue != []
    ensures ComesOff(web, queue, best, rest) && |rest| == |queue| - 1
  {
    var byHost := HostPriority(web);
    StableSortSorts(queue, byHost);
    var sorted := StableSort(queue, byHost);
    forall level: nat
      ensures OfPriority(sorted, byHost, level) == OfPriority(queue, byHost, level)
    {
      StableSortIsStable(queue, byHost, level);
    }
    SameMembers(queue, sorted);
    hide OfPriority, StableSort;
    best, rest := sorted[0], sorted[1..];
    assert sorted == [best] + rest;
    forall other <- rest
      ensures byHost(best) <= byHost(other)
    {
      var k :| 0 <= k < |rest| && rest[k] == other;
      assert sorted[k + 1] == other;
    }
  }

  lemma DropVisited(roots: seq<Entry>, trail: seq<Visited>, queue: seq<Entry>, best: Entry, rest: seq<Entry>)
    requires multiset(queue) == multiset([best] + rest)
    requires Covered(roots, trail, queue) && QueueFound(roots, trail, queue)
    ensures Covered(roots, trail, [best] + rest)
    ensures QueueFound(roots, trail, rest) && FoundBy(roots, trail, best)
    ensures KeyOf(best.action) in VisitedKeys(trail) ==> Covered(roots, trail, rest)
  {
    hide FoundBy, Successors;
    SameKeys(queue, [best] + rest);
    SameMembers(queue, [best] + rest);
    assert Keys([best] + rest) == {KeyOf(best.action)} + Keys(rest);
    assert best in [best] + rest;
    assert forall entry <- rest :: entry in [best] + rest;
  }

  lemma QueueFoundGrows(roots: seq<Entry>, trail: seq<Visited>, visit: Visited, queue: seq<Entry>)
    requires QueueFound(roots, trail, queue)
    ensures QueueFound(roots, trail + [visit], queue + Successors(visit.verdict))
  {
    hide FoundBy, Successors;
    forall entry <- queue + Successors(visit.verdict)
      ensures FoundBy(roots, trail + [visit], entry)
    {
      FoundByMore(roots, trail, visit, entry);
    }
  }

  ghost predicate EndedByDirectFile(trail: seq<Visited>) {
    trail != [] && trail[|trail| - 1].verdict.DirectFile?
  }

  /** What is left at the end: a direct file makes the traversal drop whatever was waiting. */
  ghost function Left(trail: seq<Visited>, waiting: seq<Entry>): seq<Entry> {
    if EndedByDirectFile(trail) then [] else waiting
  }

  /** Why the traversal ended. */
  ghost predicate EndedWell(trail: seq<Visited>, left: seq<Entry>, timedOut: bool) {
    || left == []
    || timedOut
    || |trail| == 24
  }

  ghost function GetVisits(trail: seq<Visited>): nat {
    if trail == [] then 0
    else GetVisits(trail[..|trail| - 1]) + (if trail[|trail| - 1].entry.action.verb == "GET" then 1 else 0)
  }

  ghost predicate EndedLate(trail: seq<Visited>) {
    trail != [] && trail[|trail| - 1].verdict.OutOfTime?
  }

  /** The clock is looked at once for every entry that comes off the queue and once more for each page fetched, up to
      and including the first look that finds it late, which ends the traversal: before the next entry comes off, or
      in the visit whose page it was. Nothing else makes the traversal time out. */
  ghost predicate Clocked(late: nat -> bool, looks: nat, taken: seq<Entry>, trail: seq<Visited>, timedOut: bool) {
    && looks == |taken| + GetVisits(trail) + (if timedOut && !EndedLate(trail) then 1 else 0)
    && (forall n: nat :: n + 1 < looks ==> !late(n))
    && (timedOut <==> looks > 0 && late(looks - 1))
    && (EndedLate(trail) ==> timedOut)
  }

  /** Every root has been visited, and so has everything that any visit found. */
  ghost predicate Closed(roots: seq<Entry>, trail: seq<Visited>) {
    && (forall root <- roots :: KeyOf(root.action) in VisitedKeys(trail))
    && (forall visit <- trail, next: Entry :: next in Successors(visit.verdict) ==>
          KeyOf(next.action) in VisitedKeys(trail))
  }

  lemma CoveredByVisits(roots: seq<Entry>, trail: seq<Visited>)
    requires Covered(roots, trail, [])
    ensures Closed(roots, trail)
  {
    hide Successors;
    forall root <- roots
      ensures KeyOf(root.action) in VisitedKeys(trail)
    {
      assert KeyOf(root.action) in Keys(roots);
    }
    forall visit <- trail, next: Entry | next in Successors(visit.verdict)
      ensures KeyOf(next.action) in VisitedKeys(trail)
    {
      assert KeyOf(next.action) in Keys(Successors(visit.verdict));
      assert KeyOf(next.action) in VisitedKeys(trail) + Keys([]);
    }
  }

  /** What the loop keeps: the trail is true and earned, everything found is accounted for, and everyone had their
      turn. */
  ghost predicate Underway(
    web: Web, selected: string, roots: seq<Entry>, trail: seq<Visited>, queue: seq<Entry>, taken: seq<Entry>)
  {
    && TrailTrue(web, selected, trail) && Earned(web, roots, trail)
    && Covered(roots, trail, queue) && QueueFound(roots, trail, queue)
    && InTurn(web, taken, queue, Discovered(roots, trail)) && FirstByKey(taken) == EntriesOf(trail)
  }

  /** An entry whose key has been visited is passed over. */
  lemma PassKeeps(
    web: Web, selected: string, roots: seq<Entry>, trail: seq<Visited>, queue: seq<Entry>, taken: seq<Entry>,
    best: Entry, rest: seq<Entry>)
    requires Underway(web, selected, roots, trail, queue, taken) && ComesOff(web, queue, best, rest)
    requires KeyOf(best.action) in VisitedKeys(trail)
    ensures Underway(web, selected, roots, trail, rest, taken + [best])
  {
    hide TrailTrue, Earned, Covered, QueueFound, FoundBy, VisitedKeys, InTurn, Discovered, FirstByKey, EntriesOf;
    DropVisited(roots, trail, queue, best, rest);
    TakenInTurn(web, taken, queue, Discovered(roots, trail), best, rest);
    FirstVisit(taken, trail, Visited(best, Expand([]), []));
  }

  /** An entry of a new key is visited, and what the visit finds goes to the end of the queue. */
  lemma VisitKeeps(
    web: Web, selected: string, roots: seq<Entry>, trail: seq<Visited>, queue: seq<Entry>, taken: seq<Entry>,
    best: Entry, rest: seq<Entry>, verdict: Verdict)
    requires Underway(web, selected, roots, trail, queue, taken) && ComesOff(web, queue, best, rest)
    requires KeyOf(best.action) !in VisitedKeys(trail)
    requires forall earlier <- trail :: !Stops(earlier.verdict)
    requires verdict == Visit(web, selected, best, true) || verdict == Visit(web, selected, best, false)
    ensures var visit := Visited(best, verdict, rest);
            && Underway(web, selected, roots, trail + [visit], rest + Successors(verdict), taken + [best])
            && VisitedKeys(trail + [visit]) == VisitedKeys(trail) + {KeyOf(best.action)}
            && ResultsOf(trail + [visit]) == ResultsOf(trail) + Reported(verdict)
  {
    hide TrailTrue, Earned, Covered, QueueFound, FoundBy, Visit, VisitedKeys, InTurn, Discovered, FirstByKey, EntriesOf;
    var visit := Visited(best, verdict, rest);
    DropVisited(roots, trail, queue, best, rest);
    TakenInTurn(web, taken, queue, Discovered(roots, trail), best, rest);
    VisitIsTrue(web, selected, best, verdict);
    TrailGrows(web, selected, trail, visit);
    EarnedGrows(web, roots, trail, visit);
    CoveredGrows(roots, trail, visit, rest);
    QueueFoundGrows(roots, trail, visit, rest);
    FoundInTurn(web, taken + [best], rest, roots, trail, visit);
    FirstVisit(taken, trail, visit);
  }

  /** The loop. It ends because each turn visits a new key or shortens the queue. Its results are those of its
      visits, in order, and one more exactly when entries are left. Entries come off the queue by priority, and
      within one in the order found; each key is visited the first time it comes off. If nothing is left waiting,
      the visits are closed under what they find. It stops with entries left only when the clock is late or the
      node limit is reached. */
  method Traverse(web: Web, selected: string, movieUrl: string, roots: seq<Entry>, late: nat -> bool)
    returns (results: seq<Result>, timedOut: bool, ghost trail: seq<Visited>, ghost waiting: seq<Entry>,
             ghost taken: seq<Entry>, ghost looks: nat)
    ensures Underway(web, selected, roots, trail, waiting, taken) && |trail| <= 24
    ensures results == ResultsOf(trail) + (if Left(trail, waiting) != [] then [LimitResult(movieUrl, timedOut)] else [])
    ensures waiting == [] ==> Closed(roots, trail)
    ensures EndedWell(trail, Left(trail, waiting), timedOut) && Clocked(late, looks, taken, trail, timedOut)
  {
    hide Underway, ComesOff, Visit, VisitedKeys, ResultsOf, Closed, Successors, Reported, LimitResult, KeyOf,
      Clocked;
    var queue := roots;
    var visited: set<Key> := {};
    var look := 0;
    ghost var dropped: seq<Entry> := [];
    results, timedOut, trail, taken := [], false, [], [];
    StartTrue(web, selected, roots);
    NoLooks(late);
    while queue != [] && |visited| < MAX_WORKFLOW_NODES
      invariant forall earlier <- trail :: !Stops(earlier.verdict)
      invariant Underway(web, selected, roots, trail, queue, taken)
      invariant visited == VisitedKeys(trail) && |visited| == |trail| <= MAX_WORKFLOW_NODES
      invariant results == ResultsOf(trail)
      invariant !timedOut && dropped == []
      invariant Clocked(late, look, taken, trail, false)
      decreases MAX_WORKFLOW_NODES - |visited|, |queue|
    {
      ghost var before := look;
      var isLate := late(look);
      look := look + 1;
      if isLate {
        LooksLate(late, before, taken, trail);
        timedOut := true;
        break;
      }
      var best, rest := TakeBest(web, queue);
      var key := KeyOf(best.action);
      if key in visited {
        PassKeeps(web, selected, roots, trail, queue, taken, best, rest);
        LooksOnce(late, before, taken, trail, best);
        queue, taken := rest, taken + [best];
        continue;
      }
      visited := visited + {key};
      var verdict;
      if best.action.verb != "GET" {
        verdict := Visit(web, selected, best, false);
      } else {
        verdict := Visit(web, selected, best, late(look));
        look := look + 1;
      }
      ghost var visit := Visited(best, verdict, rest);
      VisitKeeps(web, selected, roots, trail, queue, taken, best, rest, verdict);
      LooksAndVisits(web, selected, late, before, taken, trail, visit);
      trail, taken := trail + [visit], taken + [best];
      queue := rest + Successors(verdict);
      results := results + Reported(verdict);
      assert trail[|trail| - 1] == visit;
      match verdict {
        case Leaf(_) =>
        case Expand(_) =>
        case OutOfTime(_) =>
          timedOut := true;
          break;
        case DirectFile(_) =>
          dropped, queue := queue, [];
          break;
      }
    }
    waiting, looks := queue + dropped, look;
    assert queue == [] ==> waiting == dropped;
    assert dropped == [] ==> waiting == queue;
    if waiting == [] {
      UnderwayCovers(web, selected, roots, trail, taken);
    }
    if queue != [] {
      results := results + [LimitResult(movieUrl, timedOut)];
    }
  }

  /** What is reported for entries left waiting: nothing found, and which of the two limits was reached. */
  lemma LimitsAreReported(movieUrl: string)
    ensures forall timedOut :: LimitResult(movieUrl, timedOut).status == Partial
              && LimitResult(movieUrl, timedOut).finalUrl.None? && LimitResult(movieUrl, timedOut).pageUrl == movieUrl
              && LimitResult(movieUrl, timedOut).quality == "Multiple qualities"
              && LimitResult(movieUrl, timedOut).source == "Workflow graph"
    ensures LimitResult(movieUrl, true).message
            == "Workflow time limit reached before all branches could be inspected."
    ensures LimitResult(movieUrl, false).message
            == "Workflow node limit reached before all branches could be inspected."
  {
  }

  // ----- the clock -----

  lemma NoLooks(late: nat -> bool)
    ensures Clocked(late, 0, [], [], false)
  {
  }

  lemma LooksLate(late: nat -> bool, looks: nat, taken: seq<Entry>, trail: seq<Visited>)
    requires Clocked(late, looks, taken, trail, false) && late(looks)
    ensures Clocked(late, looks + 1, taken, trail, true)
  {
    hide GetVisits;
  }

  lemma LooksOnce(late: nat -> bool, looks: nat, taken: seq<Entry>, trail: seq<Visited>, best: Entry)
    requires Clocked(late, looks, taken, trail, false) && !late(looks)
    ensures Clocked(late, looks + 1, taken + [best], trail, false)
  {
    hide GetVisits;
  }

  /** A visit is out of time exactly if it fetched a page and the clock was late after that. */
  lemma LateVisit(web: Web, selected: string, entry: Entry, late: bool)
    ensures Visit(web, selected, entry, late).OutOfTime? <==> late && entry.action.verb == "GET"
  {
    hide FinalFile, VisitPage, Redirects;
    VisitPageNeverLate(web, selected, entry);
  }

  lemma LooksAndVisits(
    web: Web, selected: string, late: nat -> bool, looks: nat, taken: seq<Entry>, trail: seq<Visited>, visit: Visited)
    requires Clocked(late, looks, taken, trail, false) && !late(looks)
    requires visit.verdict == Visit(web, selected, visit.entry, visit.entry.action.verb == "GET" && late(looks + 1))
    ensures Clocked(late, looks + (if visit.entry.action.verb == "GET" then 2 else 1),
                    taken + [visit.entry], trail + [visit], visit.verdict.OutOfTime?)
  {
    hide Visit;
    assert (trail + [visit])[..|trail|] == trail;
    LateVisit(web, selected, visit.entry, visit.entry.action.verb == "GET" && late(looks + 1));
  }

  lemma UnderwayCovers(web: Web, selected: string, roots: seq<Entry>, trail: seq<Visited>, taken: seq<Entry>)
    requires Underway(web, selected, roots, trail, [], taken)
    ensures Closed(roots, trail)
  {
    hide TrailTrue, Earned, Covered, QueueFound, InTurn, FirstByKey, EntriesOf, Closed;
    CoveredByVisits(roots, trail);
  }

  lemma StartTrue(web: Web, selected: string, roots: seq<Entry>)
    ensures Underway(web, selected, roots, [], roots, [])
    ensures VisitedKeys([]) == {} && ResultsOf([]) == []
  {
    forall level: nat
      ensures OfPriority([], HostPriority(web), level) + OfPriority(roots, HostPriority(web), level)
              == OfPriority(roots, HostPriority(web), level)
    {
    }
  }

  /** A verdict out of time is the one of a late visit, and no other verdict depends on the clock being late. */
  lemma VisitIsTrue(web: Web, selected: string, entry: Entry, verdict: Verdict)
    requires verdict == Visit(web, selected, entry, true) || verdict == Visit(web, selected, entry, false)
    ensures verdict == Visit(web, selected, entry, verdict.OutOfTime?)
  {
    hide FinalFile, VisitPage, Redirects;
    VisitPageNeverLate(web, selected, entry);
  }

  lemma VisitPageNeverLate(web: Web, selected: string, entry: Entry)
    ensures !VisitPage(web, selected, entry, web.fetch(entry.action)).OutOfTime?
  {
  }
}
