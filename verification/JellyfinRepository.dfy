/** The cached library: what it keeps between calls, what each view lists, and the summary. */
module JellyfinRepository {
  import opened Collections
  import opened Wrappers
  import opened Trimming
  import opened NewestFirst
  import opened StableSorting
  import opened JellyfinItems
  import opened JellyfinPaging

  // ----- views and the summary -----

  datatype View = Movies | TV | MissingItems | Recent

  function ViewName(view: View): string {
    match view
    case Movies => "movies"
    case TV => "tv"
    case MissingItems => "missing"
    case Recent => "recent"
  }

  /** The view a trimmed name stands for. */
  function ParseView(name: string): Option<View> {
    var trimmed := Trim(name);
    if trimmed == ViewName(Movies) then Some(Movies)
    else if trimmed == ViewName(TV) then Some(TV)
    else if trimmed == ViewName(MissingItems) then Some(MissingItems)
    else if trimmed == ViewName(Recent) then Some(Recent)
    else None
  }

  /** A name stands for a view exactly if it is one of four words but for the white space around it. */
  lemma NamesStandForViews(name: string)
    ensures ParseView(name).None? <==> Trim(name) !in {"movies", "tv", "missing", "recent"}
    ensures forall view :: ParseView(name) == Some(view) ==> Trim(name) == ViewName(view)
  {
    hide Trim;
  }

  predicate IsMissing(item: Item) {
    item.missing || item.state.Partial?
  }

  /** Whether an item is listed under the name a view was asked for by, which is not trimmed here. */
  predicate Included(name: string, item: Item) {
    if name == ViewName(Movies) then item.mediaType.Movie?
    else if name == ViewName(TV) then !item.mediaType.Movie?
    else if name == ViewName(MissingItems) then IsMissing(item)
    else name == ViewName(Recent)
  }

  /** Every view by what it lists of valid items: films, everything else, everything missing or incomplete, and
      everything; any other name lists nothing. */
  lemma ViewsList(name: string, item: Item)
    requires Validate(item)
    ensures name == "movies" ==> (Included(name, item) <==> item.mediaType == Movie)
    ensures name == "tv" ==> (Included(name, item) <==> item.mediaType in {Series, Season, Episode})
    ensures name == "missing" ==>
              (Included(name, item) <==>
                 item.state == Missing || item.state == State.Partial || (item.state == Unknown && item.missing))
    ensures name == "recent" ==> Included(name, item)
    ensures name !in {"movies", "tv", "missing", "recent"} ==> !Included(name, item)
  {
    hide Trim;
    assert "movies"[0] != "tv"[0] && "missing"[1] == 'i' && "movies"[1] == 'o' && "recent"[0] == 'r';
  }

  datatype Summary = Summary(total: nat, movies: nat, tv: nat, missing: nat)

  function CountIf(items: seq<Item>, test: Item -> bool): nat {
    |Filter(items, test)|
  }

  /** The summary counts what the views list: the movie and television views part the items, the missing view
      lists the missing ones, and the recent view lists all. */
  ghost predicate Summarizes(items: seq<Item>, summary: Summary) {
    && summary.total == |items| == CountIf(items, item => Included("recent", item))
    && summary.movies == CountIf(items, item => Included("movies", item))
    && summary.tv == CountIf(items, item => Included("tv", item))
    && summary.missing == CountIf(items, item => Included("missing", item))
    && summary.movies + summary.tv == summary.total
  }

  method Summarize(items: seq<Item>) returns (summary: Summary)
    ensures Summarizes(items, summary)
  {
    summary := Summary(|items|, 0, 0, 0);
    for i := 0 to |items|
      invariant summary.total == |items|
      invariant CountIf(items[..i], item => Included("recent", item)) == i
      invariant summary.movies == CountIf(items[..i], item => Included("movies", item))
      invariant summary.tv == CountIf(items[..i], item => Included("tv", item))
      invariant summary.missing == CountIf(items[..i], item => Included("missing", item))
      invariant summary.movies + summary.tv == i
    {
      assert items[..i + 1][..i] == items[..i];
      if items[i].mediaType.Movie? {
        summary := summary.(movies := summary.movies + 1);
      } else {
        summary := summary.(tv := summary.tv + 1);
      }
      if IsMissing(items[i]) {
        summary := summary.(missing := summary.missing + 1);
      }
    }
    assert items[..|items|] == items;
  }

  // ----- what a source answers -----

  datatype Mode = Disabled | Fixture | Connected

  datatype Status = Status(configured: bool, mode: Mode, lastSyncedAt: Option<int>)

  datatype Answer = Answer(items: seq<Item>, status: Status)

  /** What a source's answer has to be to be kept and shown. */
  ghost predicate Presentable(answer: Answer) {
    && answer.status.configured && answer.status.mode.Connected? && answer.status.lastSyncedAt.Some?
    && (forall item <- answer.items :: Validate(item))
    && DistinctItems(answer.items)
  }

  /** What the client reads from any server is always presentable. */
  lemma ClientAnswersArePresentable(config: Config, raws: seq<Raw>, items: seq<Item>)
    requires config.syncedAt != 0 && Lists(items, Collect(config, raws))
    ensures Presentable(Answer(items, Status(true, Connected, Some(config.syncedAt))))
  {
    ListedItemsPass(config, raws, items);
  }

  // ----- lists in the order of a view -----

  /** The recent view is in order of time, newest first; the others are in order of title. */
  function ViewStamp(reading: Reading, name: string): Item -> Stamp {
    (item: Item) =>
      Stamp(if name == ViewName(Recent) then item.dateAdded else 0, reading.fold(Trim(item.title)), item.itemId)
  }

  /** The recent view never lists an older item before a newer one; every other view is in order of folded title, as
      the recent one is among items of one time, and items of one title are in order of identifier. */
  lemma ViewsAreSorted(reading: Reading, name: string, items: seq<Item>, i: nat, j: nat)
    requires InOrder(items, ViewStamp(reading, name)) && i < j < |items|
    ensures var a, b := items[i], items[j];
            var titleA, titleB := reading.fold(Trim(a.title)), reading.fold(Trim(b.title));
            && (name == "recent" ==> a.dateAdded >= b.dateAdded)
            && (name != "recent" || a.dateAdded == b.dateAdded ==>
                  Below(titleA, titleB) || (titleA == titleB && Below(a.itemId, b.itemId)))
  {
    hide Trim, Below;
    assert Before(ViewStamp(reading, name)(items[i]), ViewStamp(reading, name)(items[j]));
  }

  datatype Response = Response(name: string, generatedAt: int, items: seq<Item>, summary: Summary, status: Status)

  /** The response lists exactly the answer's items that the name includes, each once and in order. */
  ghost predicate Responds(reading: Reading, name: string, answer: Answer, response: Response) {
    && response.name == name && response.status == answer.status
    && Some(response.generatedAt) == answer.status.lastSyncedAt
    && InOrder(response.items, ViewStamp(reading, name))
    && (forall item :: item in response.items <==> item in answer.items && Included(name, item))
    && |response.items| == CountIf(answer.items, item => Included(name, item))
    && Summarizes(answer.items, response.summary)
  }

  lemma {:induction false} FilterKeepsDistinctItems(items: seq<Item>, test: Item -> bool)
    requires DistinctItems(items)
    ensures DistinctItems(Filter(items, test))
  {
    if items != [] {
      var front, last := items[..|items| - 1], items[|items| - 1];
      FilterKeepsDistinctItems(front, test);
      FilterKeeps(front, test);
      forall other <- Filter(front, test)
        ensures other.itemId != last.itemId
      {
        var i :| 0 <= i < |front| && front[i] == other;
        assert items[i].itemId != last.itemId;
      }
    }
  }

  lemma DistinctItemsDistinctStamps(reading: Reading, name: string, items: seq<Item>)
    requires DistinctItems(items)
    ensures DistinctStamps(items, ViewStamp(reading, name))
  {
    forall i, j | 0 <= i < j < |items|
      ensures ViewStamp(reading, name)(items[i]) != ViewStamp(reading, name)(items[j])
    {
      assert items[i].itemId != items[j].itemId;
    }
  }

  method Respond(reading: Reading, name: string, answer: Answer) returns (response: Response)
    requires Presentable(answer)
    ensures Responds(reading, name, answer, response)
  {
    hide Validate, InOrder, DistinctStamps, Summarizes, Included, Filter, Sort;
    var items, stamp := answer.items, ViewStamp(reading, name);
    var filtered := Filter(items, item => Included(name, item));
    FilterKeeps(items, item => Included(name, item));
    FilterKeepsDistinctItems(items, item => Included(name, item));
    DistinctItemsDistinctStamps(reading, name, filtered);
    SortSorts(filtered, stamp);
    SameMembers(filtered, Sort(filtered, stamp));
    var summary := Summarize(items);
    response := Response(name, answer.status.lastSyncedAt.value, Sort(filtered, stamp), summary, answer.status);
  }

  /** An answer leaves one response to a name. */
  lemma ResponseIsForced(reading: Reading, name: string, answer: Answer, a: Response, b: Response)
    requires Responds(reading, name, answer, a) && Responds(reading, name, answer, b)
    ensures a == b
  {
    var stamp := ViewStamp(reading, name);
    InOrderIsDistinct(a.items, stamp);
    InOrderIsDistinct(b.items, stamp);
    hide InOrder, DistinctStamps;
    SameEntries(a.items, b.items, stamp);
    OrderIsUnique(a.items, b.items, stamp);
  }

  /** A padded name is accepted but lists nothing: the name is checked trimmed and used untrimmed. A name lists
      what its view includes, whatever the items, exactly when it is not padded. */
  lemma PaddedNamesListNothing(name: string)
    requires ParseView(name).Some?
    ensures (forall item :: Included(name, item) == Included(ViewName(ParseView(name).value), item)) <==> Trim(name) == name
    ensures Trim(name) != name ==> forall item :: !Included(name, item)
  {
    TrimTwice(name);
    var view := ParseView(name).value;
    assert Trim(name) == ViewName(view);
    hide Trim;
    var shown := Item(
      "a", None, None, "a", None, if view.Movies? then Movie else Series, None, None, Missing, true, 1, 1,
      ServerRef(false, false, None, None, None));
    assert Included(ViewName(view), shown);
  }

  // ----- the repository -----

  datatype Outcome<+T> = Failed | Shown(value: T)

  class Repository {
    const ttl: nat
    const reading: Reading
    var cacheReady: bool
    var cached: Answer
    var expiresAt: int

    ghost predicate Valid()
      reads this
    {
      cacheReady ==> Presentable(cached)
    }

    /** The cache answers at this time. */
    predicate Fresh(now: int)
      reads this
    {
      cacheReady && now < expiresAt
    }

    constructor (ttl: nat, reading: Reading)
      ensures Valid() && !cacheReady && this.ttl == ttl && this.reading == reading
    {
      this.ttl, this.reading := ttl, reading;
      cacheReady, expiresAt := false, 0;
      cached := Answer([], Status(false, Disabled, None));
    }

    /** Gives the cached answer while it is fresh; otherwise asks the source, and keeps what it gives if that is
        presentable. A refused or failed answer leaves the cache as it was. */
    method Snapshot(source: Option<Answer>, now: int, later: int) returns (answer: Outcome<Answer>, asked: bool)
      requires Valid()
      modifies this
      ensures Valid()
      ensures asked <==> !old(cacheReady) || now >= old(expiresAt)
      ensures !asked ==> answer == Shown(old(cached))
      ensures asked ==> (answer.Shown? <==> source.Some? && Presentable(source.value))
      ensures asked && answer.Shown? ==> answer.value == source.value == cached && cacheReady && expiresAt == later + ttl
      ensures !asked || answer.Failed? ==> cacheReady == old(cacheReady) && cached == old(cached) && expiresAt == old(expiresAt)
      ensures answer.Shown? ==> Presentable(answer.value)
    {
      hide Validate;
      if Fresh(now) {
        return Shown(cached), false;
      }
      asked := true;
      if source.None? {
        return Failed, true;
      }
      var status, items := source.value.status, source.value.items;
      if !status.configured || !status.mode.Connected? || status.lastSyncedAt.None? {
        return Failed, true;
      }
      var seen: set<string> := {};
      for i := 0 to |items|
        invariant cacheReady == old(cacheReady) && cached == old(cached) && expiresAt == old(expiresAt)
        invariant forall k :: 0 <= k < i ==> Validate(items[k])
        invariant forall id :: id in seen <==> exists k :: 0 <= k < i && items[k].itemId == id
        invariant forall j, k :: 0 <= j < k < i ==> items[j].itemId != items[k].itemId
      {
        if !Validate(items[i]) || items[i].itemId in seen {
          assert items[i] in items;
          return Failed, true;
        }
        seen := seen + {items[i].itemId};
      }
      cacheReady, cached, expiresAt := true, source.value, later + ttl;
      answer := Shown(source.value);
    }

    /** The listing of a view, by the name it is asked for. */
    method List(name: string, source: Option<Answer>, now: int, later: int) returns (response: Outcome<Response>)
      requires Valid()
      modifies this
      ensures Valid()
      ensures ParseView(name).None? ==>
                response.Failed? && cacheReady == old(cacheReady) && cached == old(cached) && expiresAt == old(expiresAt)
      ensures response.Shown? <==>
                && ParseView(name).Some?
                && ((old(cacheReady) && now < old(expiresAt)) || (source.Some? && Presentable(source.value)))
      ensures response.Shown? ==> cacheReady && Responds(reading, name, cached, response.value)
      ensures response.Shown? && (!old(cacheReady) || now >= old(expiresAt)) ==> Some(cached) == source
    {
      hide Validate, Responds, ParseView;
      if ParseView(name).None? {
        return Failed;
      }
      var answer, asked := Snapshot(source, now, later);
      if answer.Failed? {
        return Failed;
      }
      var listed := Respond(reading, name, answer.value);
      response := Shown(listed);
    }
  }
}
