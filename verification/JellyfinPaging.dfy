/** Reading whole libraries from a media server page by page. The server's answers are arbitrary, and may change
    from one call to the next. */
module JellyfinPaging {
  import opened Collections
  import opened Wrappers
  import opened Arithmetic
  import opened Trimming
  import opened NewestFirst
  import opened JellyfinItems

  datatype Page = Page(total: int, start: int, items: seq<Raw>)

  datatype Error = Unavailable | InvalidResponse | TooManyItems

  datatype Fetched = Refused(error: Error) | Answered(page: Page)

  /** The answer to a request for a library's records from an index on; the number counts the calls made. */
  datatype Server = Server(fetch: (string, nat, nat) -> Fetched)

  datatype Config = Config(libraryIds: seq<string>, pageSize: nat, maxItems: nat, reading: Reading, syncedAt: int)

  /** The configuration is checked when the client is made, and the clock is past its zero. */
  predicate ValidConfig(config: Config) {
    1 <= config.pageSize <= 500 && 1 <= config.maxItems <= 5000 && config.syncedAt != 0
  }

  datatype Result<+T> = Failure(error: Error) | Success(value: T)

  // ----- checking a page -----

  function CheckPage(config: Config, start: nat, fetched: Fetched): Result<Page> {
    match fetched
    case Refused(error) => Failure(error)
    case Answered(page) =>
      if page.total < 0 || page.start != start || |page.items| > config.pageSize then Failure(InvalidResponse)
      else if page.total > config.maxItems then Failure(TooManyItems)
      else if page.total == 0 && |page.items| > 0 then Failure(InvalidResponse)
      else if start + |page.items| > page.total then Failure(InvalidResponse)
      else Success(page)
  }

  /** A page is accepted exactly if it is the one asked for, is no longer than asked for, and stays within a total that
      is allowed; a total beyond the limit is told apart from the other faults, unless the page is not the one asked
      for. */
  lemma PagesAccepted(config: Config, start: nat, fetched: Fetched)
    ensures var checked := CheckPage(config, start, fetched);
            && (checked.Success? <==>
                  && fetched.Answered? && fetched.page.start == start
                  && |fetched.page.items| <= config.pageSize
                  && start + |fetched.page.items| <= fetched.page.total <= config.maxItems)
            && (checked.Success? ==> checked.value == fetched.page)
            && (checked == Failure(TooManyItems) && fetched.Answered? <==>
                  && fetched.Answered? && fetched.page.start == start && |fetched.page.items| <= config.pageSize
                  && fetched.page.total > config.maxItems)
            && (fetched.Refused? ==> checked == Failure(fetched.error))
  {
  }

  // ----- what records come to -----

  /** The items of the records by identifier; of several records with one identifier the last one counts. */
  function Collect(config: Config, raws: seq<Raw>): map<string, Item> {
    if raws == [] then map[]
    else
      var front := Collect(config, raws[..|raws| - 1]);
      match MapItem(config.reading, raws[|raws| - 1], config.syncedAt)
      case Mapped(item) => front[item.itemId := item]
      case _ => front
  }

  /** No record is broken, and they come to no more items than allowed. */
  ghost predicate Accepts(config: Config, raws: seq<Raw>) {
    && (forall raw <- raws :: !MapItem(config.reading, raw, config.syncedAt).Broken?)
    && |Collect(config, raws)| <= config.maxItems
  }

  lemma CollectAppends(config: Config, raws: seq<Raw>, raw: Raw)
    ensures Collect(config, raws + [raw]) ==
            match MapItem(config.reading, raw, config.syncedAt)
            case Mapped(item) => Collect(config, raws)[item.itemId := item]
            case _ => Collect(config, raws)
  {
    assert (raws + [raw])[..|raws|] == raws;
  }

  lemma CollectGrows(config: Config, raws: seq<Raw>, raw: Raw)
    ensures |Collect(config, raws)| <= |Collect(config, raws + [raw])|
  {
    CollectAppends(config, raws, raw);
    var front := Collect(config, raws);
    match MapItem(config.reading, raw, config.syncedAt) {
      case Mapped(item) =>
        var more := front[item.itemId := item];
        assert front.Keys <= more.Keys;
        SubsetIsSmaller(front.Keys, more.Keys);
      case _ =>
    }
  }

  lemma AcceptsAppends(config: Config, raws: seq<Raw>, raw: Raw)
    ensures Accepts(config, raws + [raw]) <==>
              && Accepts(config, raws)
              && !MapItem(config.reading, raw, config.syncedAt).Broken?
              && |Collect(config, raws + [raw])| <= config.maxItems
    ensures Accepts(config, raws) ==> |Collect(config, raws)| <= config.maxItems
  {
    hide MapItem;
    CollectGrows(config, raws, raw);
    hide Collect;
    assert raw in raws + [raw];
    assert forall other <- raws :: other in raws + [raw];
  }

  /** What is accepted as a whole is accepted in part. */
  lemma {:induction false} AcceptsPrefix(config: Config, raws: seq<Raw>, more: seq<Raw>)
    requires Accepts(config, raws + more)
    ensures Accepts(config, raws)
  {
    if more == [] {
      assert raws + more == raws;
    } else {
      var front, last := more[..|more| - 1], more[|more| - 1];
      assert raws + more == (raws + front) + [last];
      CollectGrows(config, raws + front, last);
      AcceptsPrefix(config, raws, front);
    }
  }

  /** Items are kept under their own identifiers, and all are valid. */
  ghost predicate Keyed(byId: map<string, Item>) {
    forall id <- byId :: byId[id].itemId == id && Validate(byId[id])
  }

  lemma {:induction false} CollectKeys(config: Config, raws: seq<Raw>)
    requires config.syncedAt != 0
    ensures Keyed(Collect(config, raws))
  {
    if raws != [] {
      CollectKeys(config, raws[..|raws| - 1]);
      MappedItemsAreValid(config.reading, raws[|raws| - 1], config.syncedAt);
      hide Validate, MapItem;
    }
  }

  // ----- reading a page, a library, and all libraries -----

  /** Adds a page's items to those read so far. */
  method TakePage(config: Config, ghost seen: seq<Raw>, known: map<string, Item>, raws: seq<Raw>)
    returns (result: Result<map<string, Item>>)
    requires known == Collect(config, seen) && Accepts(config, seen)
    ensures result.Success? <==> Accepts(config, seen + raws)
    ensures result.Success? ==> result.value == Collect(config, seen + raws)
  {
    hide MapItem, Accepts, Collect;
    var byId := known;
    assert seen + raws[..0] == seen;
    for i := 0 to |raws|
      invariant byId == Collect(config, seen + raws[..i]) && Accepts(config, seen + raws[..i])
    {
      ghost var taken := seen + raws[..i];
      assert seen + raws[..i + 1] == taken + [raws[i]];
      CollectAppends(config, taken, raws[i]);
      AcceptsAppends(config, taken, raws[i]);
      RefusedStays(config, taken + [raws[i]], raws[i + 1..], seen + raws);
      match MapItem(config.reading, raws[i], config.syncedAt) {
        case Broken =>
          return Failure(InvalidResponse);
        case Unsupported =>
        case Mapped(item) =>
          byId := byId[item.itemId := item];
          if |byId| > config.maxItems {
            return Failure(TooManyItems);
          }
      }
    }
    assert raws[..|raws|] == raws;
    result := Success(byId);
  }

  lemma RefusedStays(config: Config, part: seq<Raw>, rest: seq<Raw>, whole: seq<Raw>)
    requires whole == part + rest
    ensures Accepts(config, whole) ==> Accepts(config, part)
  {
    if Accepts(config, whole) {
      AcceptsPrefix(config, part, rest);
    }
  }

  /** The server answers from fixed libraries, whenever it is asked. */
  ghost predicate Serves(server: Server, libraries: string -> seq<Raw>, pageSize: nat) {
    forall parent, start: nat, calls: nat | start <= |libraries(parent)| ::
      server.fetch(parent, start, calls) == Answered(PageOf(libraries(parent), start, pageSize))
  }

  function PageOf(library: seq<Raw>, start: nat, pageSize: nat): Page
    requires start <= |library|
  {
    Page(|library|, start, library[start..if start + pageSize < |library| then start + pageSize else |library|])
  }

  /** The most pages one library takes: its allowed items over the page size, rounded up. */
  function MaxPages(config: Config): nat
    requires ValidConfig(config)
  {
    (config.maxItems + config.pageSize - 1) / config.pageSize
  }

  lemma PagesBound(config: Config, full: nat)
    requires ValidConfig(config) && full * config.pageSize < config.maxItems
    ensures full + 1 <= MaxPages(config)
  {
    var n, p := config.maxItems, config.pageSize;
    assert (full + 1) * p == full * p + p <= n + p - 1;
    QuotientAtLeast(full + 1, p, n + p - 1);
  }

  lemma NextPage(library: seq<Raw>, start: nat, pageSize: nat)
    requires start <= |library|
    ensures library[..start] + PageOf(library, start, pageSize).items
            == library[..start + |PageOf(library, start, pageSize).items|]
    ensures |PageOf(library, start, pageSize).items| < pageSize ==>
              start + |PageOf(library, start, pageSize).items| == |library|
  {
  }

  /** Reads one library to its end. A full page that does not reach the announced total is followed by another. */
  method ReadLibrary(server: Server, config: Config, parent: string, ghost libraries: string -> seq<Raw>,
                     ghost seen: seq<Raw>, known: map<string, Item>, calls: nat)
    returns (result: Result<map<string, Item>>, ghost read: seq<Raw>, after: nat)
    requires ValidConfig(config) && known == Collect(config, seen) && Accepts(config, seen)
    ensures calls < after <= calls + MaxPages(config)
    ensures result.Success? ==> Accepts(config, seen + read) && result.value == Collect(config, seen + read)
    ensures Serves(server, libraries, config.pageSize) ==>
              && (result.Success? <==> |libraries(parent)| <= config.maxItems && Accepts(config, seen + libraries(parent)))
              && (result.Success? ==> read == libraries(parent))
  {
    hide Accepts, Collect, Serves, MaxPages, PageOf;
    var start: nat, byId, asked: nat := 0, known, 0;
    read, after := [], calls;
    assert seen + [] == seen;
    ghost var fixed := Serves(server, libraries, config.pageSize);
    ghost var library := libraries(parent);
    while true
      invariant after == calls + asked && start == asked * config.pageSize && start < config.maxItems
      invariant byId == Collect(config, seen + read) && Accepts(config, seen + read)
      invariant fixed ==> start <= |library| && read == library[..start]
      invariant asked > 0 && fixed ==> |library| <= config.maxItems
      decreases config.maxItems - start
    {
      PagesBound(config, asked);
      after := after + 1;
      var fetched := server.fetch(parent, start, after);
      if fixed {
        ServedPage(server, libraries, config, parent, start, after);
        NextPage(library, start, config.pageSize);
      }
      var checked := CheckPage(config, start, fetched);
      if checked.Failure? {
        return Failure(checked.error), read, after;
      }
      var page := checked.value;
      var taken := TakePage(config, seen + read, byId, page.items);
      assert (seen + read) + page.items == seen + (read + page.items);
      if fixed {
        WholeLibrary(config, seen, library, start + |page.items|);
      }
      read := read + page.items;
      if taken.Failure? {
        return Failure(taken.error), read, after;
      }
      byId, start, asked := taken.value, start + |page.items|, asked + 1;
      if |page.items| == 0 || |page.items| < config.pageSize || start >= page.total {
        break;
      }
    }
    assert library[..|library|] == library;
    result := Success(byId);
  }

  lemma ServedPage(server: Server, libraries: string -> seq<Raw>, config: Config, parent: string, start: nat, calls: nat)
    requires ValidConfig(config) && Serves(server, libraries, config.pageSize)
    requires start <= |libraries(parent)| && start < config.maxItems
    ensures var fetched := server.fetch(parent, start, calls);
            && fetched == Answered(PageOf(libraries(parent), start, config.pageSize))
            && PageOf(libraries(parent), start, config.pageSize).total == |libraries(parent)|
            && CheckPage(config, start, fetched) ==
               if |libraries(parent)| > config.maxItems then Failure(TooManyItems) else Success(fetched.page)
  {
  }

  lemma WholeLibrary(config: Config, seen: seq<Raw>, library: seq<Raw>, end: nat)
    requires end <= |library|
    ensures Accepts(config, seen + library) ==> Accepts(config, seen + library[..end])
  {
    assert seen + library == (seen + library[..end]) + library[end..];
    RefusedStays(config, seen + library[..end], library[end..], seen + library);
  }

  function Parents(config: Config): seq<string> {
    if config.libraryIds == [] then [""] else config.libraryIds
  }

  /** All records of the libraries, in the order they are asked for. */
  ghost function Everything(libraries: string -> seq<Raw>, parents: seq<string>): seq<Raw> {
    if parents == [] then []
    else Everything(libraries, parents[..|parents| - 1]) + libraries(parents[|parents| - 1])
  }

  /** Without configured libraries the whole server is read, as one library; with one, that one is. */
  lemma WhatIsRead(config: Config, libraries: string -> seq<Raw>)
    ensures config.libraryIds == [] ==> Everything(libraries, Parents(config)) == libraries("")
    ensures |config.libraryIds| == 1 ==> Everything(libraries, Parents(config)) == libraries(config.libraryIds[0])
    ensures config.libraryIds != [] ==> Parents(config) == config.libraryIds
  {
    var parents := Parents(config);
    if |parents| == 1 {
      assert parents[..0] == [] && Everything(libraries, []) == [];
    }
  }

  lemma EverythingAppends(libraries: string -> seq<Raw>, parents: seq<string>, i: nat)
    requires i < |parents|
    ensures Everything(libraries, parents[..i + 1]) == Everything(libraries, parents[..i]) + libraries(parents[i])
  {
    assert parents[..i + 1][..i] == parents[..i];
  }

  lemma {:induction false} EverythingStarts(libraries: string -> seq<Raw>, parents: seq<string>, i: nat)
    requires i <= |parents|
    ensures exists rest :: Everything(libraries, parents) == Everything(libraries, parents[..i]) + rest
  {
    if i == |parents| {
      assert parents[..i] == parents;
      assert Everything(libraries, parents) == Everything(libraries, parents[..i]) + [];
    } else {
      var front, last := parents[..|parents| - 1], parents[|parents| - 1];
      EverythingStarts(libraries, front, i);
      assert front[..i] == parents[..i];
      var rest :| Everything(libraries, front) == Everything(libraries, parents[..i]) + rest;
      assert Everything(libraries, parents) == Everything(libraries, parents[..i]) + (rest + libraries(last));
    }
  }

  function ItemStamp(item: Item): Stamp {
    Stamp(item.dateAdded, "", item.itemId)
  }

  /** The items are those of the map, newest first. */
  ghost predicate Lists(items: seq<Item>, byId: map<string, Item>) {
    && InOrder(items, ItemStamp)
    && forall item :: item in items <==> exists id <- byId :: byId[id] == item
  }

  /** Takes the items out of the map, in any order, and sorts them. */
  method ListItems(byId: map<string, Item>) returns (items: seq<Item>)
    requires Keyed(byId)
    ensures Lists(items, byId) && |items| == |byId|
  {
    hide InOrder, Validate;
    var unsorted: seq<Item>, remaining := [], byId.Keys;
    while remaining != {}
      invariant remaining <= byId.Keys && |unsorted| + |remaining| == |byId|
      invariant forall item :: item in unsorted <==> exists id :: id in byId.Keys - remaining && byId[id] == item
      invariant DistinctStamps(unsorted, ItemStamp)
    {
      var id :| id in remaining;
      ghost var before, left := unsorted, remaining;
      assert forall item <- unsorted :: item.itemId != id;
      unsorted, remaining := unsorted + [byId[id]], remaining - {id};
      TakeOne(byId, before, left, id);
    }
    assert byId.Keys - {} == byId.Keys;
    SortSorts(unsorted, ItemStamp);
    items := Sort(unsorted, ItemStamp);
    SameMembers(unsorted, items);
  }

  lemma TakeOne(byId: map<string, Item>, unsorted: seq<Item>, remaining: set<string>, id: string)
    requires remaining <= byId.Keys && id in remaining && Keyed(byId)
    requires forall item :: item in unsorted <==> exists other :: other in byId.Keys - remaining && byId[other] == item
    requires DistinctStamps(unsorted, ItemStamp)
    ensures var more := unsorted + [byId[id]];
            && DistinctStamps(more, ItemStamp)
            && forall item :: item in more <==>
                 exists other :: other in byId.Keys - (remaining - {id}) && byId[other] == item
  {
    hide Validate;
    var more, taken := unsorted + [byId[id]], byId.Keys - (remaining - {id});
    assert taken == (byId.Keys - remaining) + {id};
    forall item
      ensures item in more <==> exists other :: other in taken && byId[other] == item
    {
      if item in more {
        assert item in unsorted || item == byId[id];
      }
    }
    forall item <- unsorted
      ensures item.itemId != id
    {
    }
  }

  /** Reads every library; what comes back does not depend on the order in which the map gives its items. */
  method Snapshot(server: Server, config: Config, ghost libraries: string -> seq<Raw>)
    returns (result: Result<seq<Item>>, ghost seen: seq<Raw>, calls: nat)
    requires ValidConfig(config)
    ensures calls <= |Parents(config)| * MaxPages(config)
    ensures result.Success? ==> Lists(result.value, Collect(config, seen)) && |result.value| <= config.maxItems
    ensures result.Success? ==> Accepts(config, seen) && ListsRecords(config, seen, result.value)
    ensures Serves(server, libraries, config.pageSize) ==>
              && (result.Success? <==>
                    && (forall parent <- Parents(config) :: |libraries(parent)| <= config.maxItems)
                    && Accepts(config, Everything(libraries, Parents(config))))
              && (result.Success? ==> seen == Everything(libraries, Parents(config)))
  {
    hide Serves, MaxPages, MapItem, Lists, Keyed, Everything, Collect, Accepts, ListsRecords;
    var parents := Parents(config);
    var byId: map<string, Item> := map[];
    seen, calls := [], 0;
    ghost var fixed := Serves(server, libraries, config.pageSize);
    NothingRead(config, libraries);
    assert parents[..0] == [];
    for i := 0 to |parents|
      invariant calls <= i * MaxPages(config)
      invariant byId == Collect(config, seen) && Accepts(config, seen)
      invariant fixed ==> seen == Everything(libraries, parents[..i])
      invariant fixed ==> forall k :: 0 <= k < i ==> |libraries(parents[k])| <= config.maxItems
    {
      var taken, read, after := ReadLibrary(server, config, parents[i], libraries, seen, byId, calls);
      calls := after;
      EverythingAppends(libraries, parents, i);
      if taken.Failure? {
        if fixed {
          LibraryRefused(config, libraries, parents, i);
        }
        assert (i + 1) * MaxPages(config) <= |parents| * MaxPages(config) by {
          ProductGrows(i + 1, |parents|, MaxPages(config));
        }
        return Failure(taken.error), seen, calls;
      }
      byId, seen := taken.value, seen + read;
    }
    assert parents[..|parents|] == parents;
    CollectKeys(config, seen);
    AcceptedFits(config, seen);
    var items := ListItems(byId);
    RecordsAreListed(config, seen, items);
    result := Success(items);
  }

  lemma AcceptedFits(config: Config, raws: seq<Raw>)
    requires Accepts(config, raws)
    ensures |Collect(config, raws)| <= config.maxItems
  {
  }

  lemma NothingRead(config: Config, libraries: string -> seq<Raw>)
    ensures Collect(config, []) == map[] && Accepts(config, []) && Everything(libraries, []) == []
  {
  }

  /** A library that cannot be taken after those before it makes the whole unacceptable. */
  lemma LibraryRefused(config: Config, libraries: string -> seq<Raw>, parents: seq<string>, i: nat)
    requires i < |parents|
    requires !(|libraries(parents[i])| <= config.maxItems && Accepts(config, Everything(libraries, parents[..i + 1])))
    ensures !(&& (forall parent <- parents :: |libraries(parent)| <= config.maxItems)
              && Accepts(config, Everything(libraries, parents)))
  {
    assert parents[i] in parents;
    EverythingStarts(libraries, parents, i + 1);
    var rest :| Everything(libraries, parents) == Everything(libraries, parents[..i + 1]) + rest;
    RefusedStays(config, Everything(libraries, parents[..i + 1]), rest, Everything(libraries, parents));
  }

  /** The map leaves one list. */
  lemma ListingIsUnique(a: seq<Item>, b: seq<Item>, byId: map<string, Item>)
    requires Lists(a, byId) && Lists(b, byId)
    ensures a == b
  {
    InOrderIsDistinct(a, ItemStamp);
    InOrderIsDistinct(b, ItemStamp);
    hide InOrder, DistinctStamps;
    SameEntries(a, b, ItemStamp);
    OrderIsUnique(a, b, ItemStamp);
  }

  ghost predicate DistinctItems(items: seq<Item>) {
    forall i, j :: 0 <= i < j < |items| ==> items[i].itemId != items[j].itemId
  }

  /** Every listed item is valid, and no identifier is listed twice. */
  lemma ListedItemsPass(config: Config, raws: seq<Raw>, items: seq<Item>)
    requires config.syncedAt != 0 && Lists(items, Collect(config, raws))
    ensures (forall item <- items :: Validate(item)) && DistinctItems(items)
  {
    CollectKeys(config, raws);
    InOrderIsDistinct(items, ItemStamp);
    hide Validate, InOrder, Collect;
    var byId := Collect(config, raws);
    forall i, j | 0 <= i < j < |items|
      ensures items[i].itemId != items[j].itemId
    {
      assert items[i] in items && items[j] in items;
      var a :| a in byId && byId[a] == items[i];
      var b :| b in byId && byId[b] == items[j];
      assert ItemStamp(items[i]) != ItemStamp(items[j]);
    }
  }

  /** The identifiers are those of the supported records, each with the item of its last record. */
  lemma {:induction false} CollectIsTheLast(config: Config, raws: seq<Raw>, id: string)
    ensures id in Collect(config, raws) <==>
              exists i :: IsLastOf(config, raws, id, i)
    ensures forall i :: IsLastOf(config, raws, id, i) ==>
              Mapped(Collect(config, raws)[id]) == MapItem(config.reading, raws[i], config.syncedAt)
  {
    hide MapItem;
    if raws != [] {
      var front, n := raws[..|raws| - 1], |raws| - 1;
      CollectIsTheLast(config, front, id);
      if MapsTo(config, raws[n], id) {
        assert IsLastOf(config, raws, id, n);
      } else {
        assert forall i :: IsLastOf(config, raws, id, i) <==> IsLastOf(config, front, id, i);
      }
    }
  }

  predicate MapsTo(config: Config, raw: Raw, id: string) {
    var mapped := MapItem(config.reading, raw, config.syncedAt);
    mapped.Mapped? && mapped.item.itemId == id
  }

  ghost predicate IsLastOf(config: Config, raws: seq<Raw>, id: string, i: int) {
    0 <= i < |raws| && MapsTo(config, raws[i], id) && forall k :: i < k < |raws| ==> !MapsTo(config, raws[k], id)
  }

  // ----- what is listed for the records -----

  predicate Supported(config: Config, raw: Raw) {
    config.reading.mediaType(Trim(raw.kind)).Some?
  }

  /** No later supported record has its identifier. */
  ghost predicate LastRecord(config: Config, raws: seq<Raw>, i: int) {
    && 0 <= i < |raws| && Supported(config, raws[i])
    && forall k :: i < k < |raws| && Supported(config, raws[k]) ==> Trim(raws[k].id) != Trim(raws[i].id)
  }

  ghost predicate ToldBy(config: Config, raws: seq<Raw>, i: int, item: Item) {
    LastRecord(config, raws, i) && Tells(config.reading, raws[i], config.syncedAt, item)
  }

  /** Every listed item says what the last record with its identifier says, and every such record has an item. */
  ghost predicate ListsRecords(config: Config, raws: seq<Raw>, items: seq<Item>) {
    && (forall item <- items :: exists i :: ToldBy(config, raws, i, item))
    && (forall i :: LastRecord(config, raws, i) ==> exists item <- items :: ToldBy(config, raws, i, item))
  }

  lemma SameIdentifier(a: string, b: string)
    ensures "jellyfin:" + a == "jellyfin:" + b <==> a == b
  {
    assert ("jellyfin:" + a)[9..] == a && ("jellyfin:" + b)[9..] == b;
  }

  /** In accepted records every supported one maps to its identifier. */
  lemma SupportedMaps(config: Config, raws: seq<Raw>, k: nat, id: string)
    requires config.syncedAt != 0 && Accepts(config, raws) && k < |raws|
    ensures MapsTo(config, raws[k], "jellyfin:" + id) <==> Supported(config, raws[k]) && Trim(raws[k].id) == id
  {
    MappedItemsAreValid(config.reading, raws[k], config.syncedAt);
    SameIdentifier(Trim(raws[k].id), id);
    hide MapItem, Validate, Trim;
    assert raws[k] in raws;
  }

  lemma LastMaps(config: Config, raws: seq<Raw>, i: int, id: string)
    requires config.syncedAt != 0 && Accepts(config, raws)
    ensures IsLastOf(config, raws, "jellyfin:" + id, i) <==> LastRecord(config, raws, i) && Trim(raws[i].id) == id
  {
    hide Accepts, MapsTo, Supported, Trim;
    forall k: nat | k < |raws|
      ensures MapsTo(config, raws[k], "jellyfin:" + id) <==> Supported(config, raws[k]) && Trim(raws[k].id) == id
    {
      SupportedMaps(config, raws, k, id);
    }
  }

  lemma LastIsTold(config: Config, raws: seq<Raw>, i: int, id: string)
    requires config.syncedAt != 0 && Accepts(config, raws) && IsLastOf(config, raws, "jellyfin:" + id, i)
    ensures "jellyfin:" + id in Collect(config, raws)
    ensures ToldBy(config, raws, i, Collect(config, raws)["jellyfin:" + id])
  {
    CollectIsTheLast(config, raws, "jellyfin:" + id);
    LastMaps(config, raws, i, id);
    hide Accepts, LastRecord, Tells, Collect;
    MappedItemsTell(config.reading, raws[i], config.syncedAt);
  }

  /** Accepted records are listed. */
  lemma RecordsAreListed(config: Config, raws: seq<Raw>, items: seq<Item>)
    requires config.syncedAt != 0 && Accepts(config, raws) && Lists(items, Collect(config, raws))
    ensures ListsRecords(config, raws, items)
  {
    hide Accepts, ToldBy, IsLastOf, LastRecord, Trim, InOrder, Validate;
    CollectKeys(config, raws);
    var byId := Collect(config, raws);
    forall item <- items
      ensures exists i :: ToldBy(config, raws, i, item)
    {
      var id :| id in byId && byId[id] == item;
      CollectIsTheLast(config, raws, id);
      hide Collect;
      var i :| IsLastOf(config, raws, id, i);
      var short := LastIdentifier(config, raws, i, id);
      LastIsTold(config, raws, i, short);
    }
    forall i | LastRecord(config, raws, i)
      ensures exists item <- items :: ToldBy(config, raws, i, item)
    {
      hide Collect;
      LastIsInside(config, raws, i);
      LastMaps(config, raws, i, Trim(raws[i].id));
      LastIsTold(config, raws, i, Trim(raws[i].id));
      assert byId["jellyfin:" + Trim(raws[i].id)] in items;
    }
  }

  lemma LastIsInside(config: Config, raws: seq<Raw>, i: int)
    requires LastRecord(config, raws, i)
    ensures 0 <= i < |raws|
  {
  }

  lemma LastIdentifier(config: Config, raws: seq<Raw>, i: int, id: string) returns (short: string)
    requires config.syncedAt != 0 && IsLastOf(config, raws, id, i)
    ensures id == "jellyfin:" + short
  {
    MappedItemsAreValid(config.reading, raws[i], config.syncedAt);
    hide MapItem, Validate, Trim;
    short := Trim(raws[i].id);
  }
}
