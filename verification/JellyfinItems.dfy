/** Library items, what makes one valid, and how they are made from a media server's records. Times are counted
    from the zero time; lengths are counted in characters. */
module JellyfinItems {
  import opened Wrappers
  import opened Trimming
  import opened NewestFirst

  const MAX_ID_LENGTH := 128
  const MAX_TITLE_LENGTH := 300

  datatype MediaType = Movie | Series | Season | Episode

  datatype State = Available | Missing | Partial | Unknown

  datatype ServerRef = ServerRef(
    configured: bool, present: bool, itemId: Option<string>, serverId: Option<string>, lastSyncedAt: Option<int>)

  datatype Item = Item(
    itemId: string, contentId: Option<string>, tmdbId: Option<string>, title: string, year: Option<int>,
    mediaType: MediaType, season: Option<int>, episode: Option<int>, state: State, missing: bool,
    dateAdded: int, updatedAt: int, jellyfin: ServerRef)

  /** A record as the server sends it. The provider identifier is the one found for the movie database. */
  datatype Raw = Raw(
    id: string, serverId: string, name: string, kind: string, productionYear: Option<int>,
    indexNumber: Option<int>, parentIndexNumber: Option<int>, dateCreated: string, tmdbId: Option<string>)

  /** How kinds, times and letter case are read. */
  datatype Reading = Reading(mediaType: string -> Option<MediaType>, time: string -> Option<int>, fold: string -> string)

  // ----- validity -----

  predicate Validate(item: Item) {
    && Trim(item.itemId) != "" && Trim(item.title) != ""
    && item.dateAdded != 0 && item.updatedAt != 0 && item.dateAdded <= item.updatedAt
    && (item.missing == item.state.Missing? || item.state.Partial? || item.state.Unknown?)
    && (item.mediaType.Episode? ==> item.season.Some? && item.episode.Some?)
    && (item.mediaType.Season? ==> item.season.Some?)
    && (!item.jellyfin.configured ==>
          !item.jellyfin.present && item.jellyfin.itemId.None? && item.jellyfin.serverId.None?
          && item.jellyfin.lastSyncedAt.None?)
    && (item.jellyfin.present ==> item.jellyfin.itemId.Some?)
  }

  /** Which items are valid: named, dated in order, missing just if its state says so unless that leaves it open, numbered
      as its type needs, and with server data only on a configured server, where it must have an identifier if present. */
  lemma ValidItemsMean(item: Item)
    ensures Validate(item) <==>
              && !Blank(item.itemId) && !Blank(item.title)
              && 0 !in {item.dateAdded, item.updatedAt}
              && (item.updatedAt == item.dateAdded || item.updatedAt > item.dateAdded)
              && (match item.state
                  case Available => !item.missing
                  case Missing => item.missing
                  case Partial => true
                  case Unknown => true)
              && (match item.mediaType
                  case Episode => item.season != None && item.episode != None
                  case Season => item.season != None
                  case Movie => true
                  case Series => true)
              && (if item.jellyfin.configured then item.jellyfin.itemId == None ==> !item.jellyfin.present
                  else item.jellyfin == ServerRef(false, false, None, None, None))
  {
    var idBefore, idAfter := TrimMeans(item.itemId);
    var titleBefore, titleAfter := TrimMeans(item.title);
    hide Trim, Blank;
  }

  // ----- from a record to an item -----

  datatype Mapped = Unsupported | Broken | Mapped(item: Item)

  function Bounded(value: Option<int>, low: int, high: int): Option<int> {
    if value.Some? && low <= value.value <= high then value else None
  }

  function OptionalText(value: string, limit: nat): Option<string> {
    if Trim(value) == "" || |Trim(value)| > limit then None else Some(Trim(value))
  }

  function MediaName(mediaType: MediaType): string {
    match mediaType
    case Movie => "movie"
    case Series => "series"
    case Season => "season"
    case Episode => "episode"
  }

  /** The numbers an item of this type needs, or nothing when one is missing. */
  function Numbers(raw: Raw, mediaType: MediaType): Option<(Option<int>, Option<int>)> {
    var index, parent := Bounded(raw.indexNumber, 0, 10000), Bounded(raw.parentIndexNumber, 0, 10000);
    match mediaType
    case Season => if index.Some? then Some((index, None)) else None
    case Episode => if parent.Some? && index.Some? then Some((parent, index)) else None
    case _ => Some((None, None))
  }

  function DateOf(reading: Reading, raw: Raw, syncedAt: int): int {
    match reading.time(Trim(raw.dateCreated))
    case Some(time) => if time == 0 then syncedAt else time
    case None => syncedAt
  }

  function MapItem(reading: Reading, raw: Raw, syncedAt: int): Mapped {
    match reading.mediaType(Trim(raw.kind))
    case None => Unsupported
    case Some(mediaType) =>
      var id, title, numbers := Trim(raw.id), Trim(raw.name), Numbers(raw, mediaType);
      if id == "" || title == "" || |id| > MAX_ID_LENGTH || |title| > MAX_TITLE_LENGTH || numbers.None? then Broken
      else
        var added := DateOf(reading, raw, syncedAt);
        var content := if raw.tmdbId.Some? then "tmdb:" + MediaName(mediaType) + ":" + raw.tmdbId.value
                       else "jellyfin:" + id;
        var item := Item(
          "jellyfin:" + id, Some(content), raw.tmdbId, title, Bounded(raw.productionYear, 1874, 2200),
          mediaType, numbers.value.0, numbers.value.1, Available, false,
          added, if syncedAt < added then added else syncedAt,
          ServerRef(true, true, Some(id), OptionalText(raw.serverId, MAX_ID_LENGTH), Some(syncedAt)));
        if Validate(item) then Mapped(item) else Broken
  }

  lemma NotBlank(s: string, c: char, tail: string)
    requires s == [c] + tail && !IsSpace(c)
    ensures Trim(s) != ""
  {
    assert TrimLeft(s) == s;
    TrimRightKeepsFirst(s);
  }

  lemma {:induction false} TrimRightKeepsFirst(s: string)
    requires s != [] && !IsSpace(s[0])
    ensures TrimRight(s) != []
  {
    if IsSpace(s[|s| - 1]) {
      TrimRightKeepsFirst(s[..|s| - 1]);
    }
  }

  predicate InRange(number: Option<int>) {
    number.Some? && 0 <= number.value <= 10000
  }

  /** What a supported record needs to become an item. */
  predicate Usable(raw: Raw, mediaType: MediaType) {
    && 1 <= |Trim(raw.id)| <= 128 && 1 <= |Trim(raw.name)| <= 300
    && (mediaType.Season? ==> InRange(raw.indexNumber))
    && (mediaType.Episode? ==> InRange(raw.indexNumber) && InRange(raw.parentIndexNumber))
  }

  /** At any time but the zero time the closing check never refuses: a supported record is broken exactly when its
      identifier, title or numbers are unusable, and an item that is made is valid. */
  lemma MappedItemsAreValid(reading: Reading, raw: Raw, syncedAt: int)
    requires syncedAt != 0
    ensures var mapped := MapItem(reading, raw, syncedAt);
            var mediaType := reading.mediaType(Trim(raw.kind));
            && (mapped.Unsupported? <==> mediaType.None?)
            && (mapped.Mapped? <==> mediaType.Some? && Usable(raw, mediaType.value))
            && (mapped.Mapped? ==> Validate(mapped.item) && mapped.item.itemId == "jellyfin:" + Trim(raw.id))
  {
    TrimTwice(raw.name);
    var id := "jellyfin:" + Trim(raw.id);
    NotBlank(id, 'j', id[1..]);
    hide Trim;
    var mediaType := reading.mediaType(Trim(raw.kind));
    if mediaType.Some? {
      NumbersWhenUsable(raw, mediaType.value);
      hide Numbers, InRange;
    }
  }

  lemma NumbersWhenUsable(raw: Raw, mediaType: MediaType)
    ensures Numbers(raw, mediaType).Some? <==>
              && (mediaType.Season? ==> InRange(raw.indexNumber))
              && (mediaType.Episode? ==> InRange(raw.indexNumber) && InRange(raw.parentIndexNumber))
    ensures var numbers := Numbers(raw, mediaType);
            && (numbers.Some? && mediaType.Episode? ==> numbers.value.0.Some? && numbers.value.1.Some?)
            && (numbers.Some? && mediaType.Season? ==> numbers.value.0.Some?)
  {
  }

  // ----- what an item says of its record -----

  /** An episode has the number of its season's record and its own, a season its own, and nothing else has any. */
  predicate TellsNumbers(raw: Raw, item: Item) {
    && (item.mediaType.Episode? ==>
          InRange(item.season) && item.season == raw.parentIndexNumber
          && InRange(item.episode) && item.episode == raw.indexNumber)
    && (item.mediaType.Season? ==> InRange(item.season) && item.season == raw.indexNumber && item.episode.None?)
    && (item.mediaType.Movie? || item.mediaType.Series? ==> item.season.None? && item.episode.None?)
  }

  /** The year is the record's if it is a year of films, and not known otherwise. */
  predicate TellsYear(raw: Raw, item: Item) {
    match raw.productionYear
    case Some(year) => item.year == if year < 1874 || year > 2200 then None else Some(year)
    case None => item.year == None
  }

  /** The item was added when its record says, or was first seen when that cannot be read, and was updated at the later
      of that time and the time of reading. */
  predicate TellsDates(reading: Reading, raw: Raw, syncedAt: int, item: Item) {
    var read := reading.time(Trim(raw.dateCreated));
    && (if read.None? || read == Some(0) then item.dateAdded == syncedAt else read == Some(item.dateAdded))
    && item.updatedAt >= item.dateAdded && item.updatedAt >= syncedAt
    && (item.updatedAt == item.dateAdded || item.updatedAt == syncedAt)
  }

  /** The content is named after the movie-database number, with the type, when the record has one, and otherwise after
      the server's identifier, as the item always is. */
  predicate TellsIds(raw: Raw, item: Item) {
    && item.itemId == "jellyfin:" + Trim(raw.id) && item.tmdbId == raw.tmdbId
    && (raw.tmdbId.None? ==> item.contentId == Some(item.itemId))
    && (raw.tmdbId.Some? ==> match item.mediaType
          case Movie => item.contentId == Some("tmdb:movie:" + raw.tmdbId.value)
          case Series => item.contentId == Some("tmdb:series:" + raw.tmdbId.value)
          case Season => item.contentId == Some("tmdb:season:" + raw.tmdbId.value)
          case Episode => item.contentId == Some("tmdb:episode:" + raw.tmdbId.value))
  }

  /** The item is on a configured server, under its identifier there, and was last seen at the time of reading. The
      server's own identifier is left out when it is blank or too long. */
  predicate TellsServer(raw: Raw, syncedAt: int, item: Item) {
    var server := Trim(raw.serverId);
    && item.jellyfin.configured && item.jellyfin.present && item.jellyfin.itemId == Some(Trim(raw.id))
    && item.jellyfin.lastSyncedAt == Some(syncedAt)
    && (item.jellyfin.serverId == Some(server) || item.jellyfin.serverId == None)
    && (item.jellyfin.serverId.Some? <==> 1 <= |server| <= 128)
  }

  predicate Tells(reading: Reading, raw: Raw, syncedAt: int, item: Item) {
    && reading.mediaType(Trim(raw.kind)) == Some(item.mediaType)
    && item.title == Trim(raw.name) && item.state == Available && !item.missing
    && TellsNumbers(raw, item) && TellsYear(raw, item) && TellsDates(reading, raw, syncedAt, item)
    && TellsIds(raw, item) && TellsServer(raw, syncedAt, item)
  }

  /** An item says what its record says. */
  lemma MappedItemsTell(reading: Reading, raw: Raw, syncedAt: int)
    requires MapItem(reading, raw, syncedAt).Mapped?
    ensures Tells(reading, raw, syncedAt, MapItem(reading, raw, syncedAt).item)
  {
    hide Trim, Validate;
    var item := MapItem(reading, raw, syncedAt).item;
    ContentIsNamed(raw, item);
  }

  lemma ContentIsNamed(raw: Raw, item: Item)
    requires item.itemId == "jellyfin:" + Trim(raw.id) && item.tmdbId == raw.tmdbId
    requires item.contentId == Some(if raw.tmdbId.Some? then "tmdb:" + MediaName(item.mediaType) + ":" + raw.tmdbId.value
                                    else "jellyfin:" + Trim(raw.id))
    ensures TellsIds(raw, item)
  {
    hide Trim;
    if raw.tmdbId.Some? {
      match item.mediaType {
        case Movie => assert "tmdb:" + "movie" + ":" == "tmdb:movie:";
        case Series => assert "tmdb:" + "series" + ":" == "tmdb:series:";
        case Season => assert "tmdb:" + "season" + ":" == "tmdb:season:";
        case Episode => assert "tmdb:" + "episode" + ":" == "tmdb:episode:";
      }
    }
  }
}
