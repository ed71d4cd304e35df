/** Aggregating search rows: what the titles, their variants and the sources of these say of the rows. */
module Aggregation {
  import opened Collections
  import opened Wrappers
  import opened Grouping
  import opened AggregationPass

  // ----- what titles and variants say, clash or not -----

  /** The rows with this title identifier and variant key, of whatever titles. */
  function OfPlace(ids: Ids, rows: seq<Row>, at: (string, VariantKey)): seq<Ranked> {
    if rows == [] then []
    else
      var last := |rows| - 1;
      OfPlace(ids, rows[..last], at)
      + (if ids.content(rows[last].identity) == at.0 && rows[last].key == at.1 then [Ranked(rows[last], last)] else [])
  }

  lemma OfPlaceAppends(ids: Ids, rows: seq<Row>, row: Row, at: (string, VariantKey))
    ensures OfPlace(ids, rows + [row], at) ==
            OfPlace(ids, rows, at)
            + (if ids.content(row.identity) == at.0 && row.key == at.1 then [Ranked(row, |rows|)] else [])
  {
    assert (rows + [row])[..|rows|] == rows;
  }

  lemma {:induction false} OfPlaceMeans(ids: Ids, rows: seq<Row>, at: (string, VariantKey))
    ensures OfPlace(ids, rows, at) != [] <==> Owner(ids, rows, at).Some?
    ensures RowsRise(OfPlace(ids, rows, at))
    ensures forall ranked <- OfPlace(ids, rows, at) :: ranked.priority < |rows| && rows[ranked.priority] == ranked.row
  {
    if rows != [] {
      var last := |rows| - 1;
      OfPlaceMeans(ids, rows[..last], at);
      var before := OfPlace(ids, rows[..last], at);
      assert forall ranked <- before :: ranked.priority < last && rows[..last][ranked.priority] == rows[ranked.priority];
    }
  }

  /** The title's heading is its first row's. */
  ghost predicate Headed(rows: seq<Row>, identity: Identity, content: Content) {
    OfIdentity(rows, identity) != [] && content.heading == OfIdentity(rows, identity)[0].row.heading
  }

  ghost predicate AllHeaded(rows: seq<Row>, identities: seq<Identity>, contents: seq<Content>) {
    |contents| == |identities| && forall c :: 0 <= c < |contents| ==> Headed(rows, identities[c], contents[c])
  }

  /** The titles' languages are those of their rows. */
  ghost predicate AllSpoken(rows: seq<Row>, identities: seq<Identity>, contents: seq<Content>) {
    && |contents| == |identities|
    && forall c :: 0 <= c < |contents| ==> contents[c].languages == LanguagesOf(OfIdentity(rows, identities[c]))
  }

  /** The variant is made of all rows with its title's identifier and its key. */
  ghost predicate MadeOfRows(ids: Ids, rows: seq<Row>, content: string, variant: Variant) {
    var group := OfPlace(ids, rows, (content, variant.key));
    group != [] && variant == VariantOf(ids, content, group)
  }

  ghost predicate AllMade(ids: Ids, rows: seq<Row>, contents: seq<Content>) {
    forall c, v :: 0 <= c < |contents| && 0 <= v < |contents[c].variants| ==>
      MadeOfRows(ids, rows, contents[c].id, contents[c].variants[v])
  }

  lemma FoundHeaded(ids: Ids, rows: seq<Row>, p: Progress, row: Row)
    requires |p.identities| == |p.contents| && p.identities == Firsts(IdentitiesOf(rows))
    requires AllHeaded(rows, p.identities, p.contents)
    ensures var found := Found(ids, p, row); AllHeaded(rows + [row], found.identities, found.contents)
  {
    FirstsMean(IdentitiesOf(rows));
    hide Firsts, IdentitiesOf, OfIdentity;
    var found := Found(ids, p, row);
    forall c | 0 <= c < |found.contents|
      ensures Headed(rows + [row], found.identities[c], found.contents[c])
    {
      IdentityAppends(rows, row, found.identities[c]);
      OfIdentityMeans(rows, found.identities[c]);
      assert c < |p.contents| ==> Headed(rows, p.identities[c], p.contents[c]);
    }
  }

  lemma FoundSpoken(ids: Ids, rows: seq<Row>, p: Progress, row: Row)
    requires |p.identities| == |p.contents| && p.identities == Firsts(IdentitiesOf(rows))
    requires AllSpoken(rows, p.identities, p.contents)
    ensures var found := Found(ids, p, row); AllSpoken(rows, found.identities, found.contents)
  {
    FirstsMean(IdentitiesOf(rows));
    OfIdentityMeans(rows, row.identity);
    assert LanguagesOf([]) == [];
    hide Firsts, IdentitiesOf, OfIdentity, LanguagesOf;
    var found := Found(ids, p, row);
    forall c | 0 <= c < |found.contents|
      ensures found.contents[c].languages == LanguagesOf(OfIdentity(rows, found.identities[c]))
    {
      if c == |p.contents| {
        assert found.identities[c] == row.identity;
      }
    }
  }

  /** Filing a row changes no title's heading or languages. */
  lemma FiledKeepsTitles(ids: Ids, p: Progress, c: nat, next: Ranked)
    requires PlacesExist(p) && c < |p.contents|
    ensures var filed := Filed(ids, p, c, next);
            && filed.identities == p.identities && |filed.contents| == |p.contents|
            && forall k :: 0 <= k < |p.contents| ==>
                 && filed.contents[k].heading == p.contents[k].heading
                 && filed.contents[k].languages == p.contents[k].languages
  {
    var at := (p.contents[c].id, next.row.key);
    assert at in p.places ==> Houses(p.contents, at, p.places[at]);
    hide Extend, Start;
  }

  /** The languages of a row go to its own title. */
  lemma LabelledSpoken(rows: seq<Row>, p: Progress, c: nat, next: Ranked)
    requires c < |p.contents| && Distinct(p.identities) && AllSpoken(rows, p.identities, p.contents)
    requires p.identities[c] == next.row.identity && next.priority == |rows|
    ensures AllSpoken(rows + [next.row], p.identities, Labelled(p, c, next.row).contents)
  {
    hide OfIdentity, AddMissing;
    var labelled := Labelled(p, c, next.row);
    forall k | 0 <= k < |p.contents|
      ensures labelled.contents[k].languages == LanguagesOf(OfIdentity(rows + [next.row], p.identities[k]))
    {
      IdentityAppends(rows, next.row, p.identities[k]);
      var group := OfIdentity(rows, p.identities[k]);
      if k == c {
        KeyAppends(group, next, next.row.key);
      } else {
        assert group + [] == group;
      }
    }
  }

  lemma FoundMade(ids: Ids, rows: seq<Row>, p: Progress, row: Row)
    requires |p.identities| == |p.contents| && AllMade(ids, rows, p.contents)
    ensures AllMade(ids, rows, Found(ids, p, row).contents)
  {
    hide MadeOfRows;
  }

  lemma MadeOfMore(ids: Ids, rows: seq<Row>, content: string, variant: Variant, next: Ranked)
    requires MadeOfRows(ids, rows, content, variant) && next.priority == |rows|
    ensures var own := ids.content(next.row.identity) == content && next.row.key == variant.key;
            MadeOfRows(ids, rows + [next.row], content, if own then Extend(ids, variant, next) else variant)
  {
    var at := (content, variant.key);
    OfPlaceAppends(ids, rows, next.row, at);
    var group := OfPlace(ids, rows, at);
    VariantGrows(ids, content, group, next);
    hide OfPlace, VariantOf;
    assert group + [] == group;
    assert Extend(ids, variant, next).key == variant.key;
  }

  lemma StartIsMade(ids: Ids, rows: seq<Row>, next: Ranked)
    requires next.priority == |rows|
    requires Owner(ids, rows, (ids.content(next.row.identity), next.row.key)).None?
    ensures var content := ids.content(next.row.identity);
            MadeOfRows(ids, rows + [next.row], content, Start(ids, content, next))
  {
    var content := ids.content(next.row.identity);
    var at := (content, next.row.key);
    OfPlaceAppends(ids, rows, next.row, at);
    OfPlaceMeans(ids, rows, at);
    assert [] + [next] == [next];
    hide Owner, OfPlace;
  }

  /** Extending a variant whose place is known makes it of one row more, and leaves the other variants to theirs. */
  lemma ExtendedMade(ids: Ids, rows: seq<Row>, p: Progress, c: nat, next: Ranked)
    requires |p.identities| == |p.contents| && PlacesExist(p) && VariantsFiled(ids, rows, p) && c < |p.contents|
    requires AllMade(ids, rows, p.contents) && next.priority == |rows|
    requires p.contents[c].id == ids.content(next.row.identity) && (p.contents[c].id, next.row.key) in p.places
    ensures AllMade(ids, rows + [next.row], Filed(ids, p, c, next).contents)
  {
    var at := (p.contents[c].id, next.row.key);
    var (a, b) := p.places[at];
    assert Houses(p.contents, at, (a, b));
    var extended := Extend(ids, p.contents[a].variants[b], next);
    var filed := p.contents[a := p.contents[a].(variants := p.contents[a].variants[b := extended])];
    assert Filed(ids, p, c, next).contents == filed;
    hide Filed, PlacesExist, Owner, MadeOfRows, Extend;
    forall k, v | 0 <= k < |filed| && 0 <= v < |filed[k].variants|
      ensures MadeOfRows(ids, rows + [next.row], filed[k].id, filed[k].variants[v])
    {
      assert FiledAt(ids, rows, p, k, v);
      assert MadeOfRows(ids, rows, p.contents[k].id, p.contents[k].variants[v]);
      MadeOfMore(ids, rows, p.contents[k].id, p.contents[k].variants[v], next);
    }
  }

  lemma StartedMade(ids: Ids, rows: seq<Row>, p: Progress, c: nat, next: Ranked)
    requires PlacesExist(p) && c < |p.contents| && next.priority == |rows| && AllMade(ids, rows, p.contents)
    requires p.contents[c].id == ids.content(next.row.identity) && (p.contents[c].id, next.row.key) !in p.places
    requires Owner(ids, rows, (p.contents[c].id, next.row.key)).None?
    ensures AllMade(ids, rows + [next.row], Filed(ids, p, c, next).contents)
  {
    var content := p.contents[c];
    var filed := p.contents[c := content.(variants := content.variants + [Start(ids, content.id, next)])];
    assert Filed(ids, p, c, next).contents == filed;
    StartIsMade(ids, rows, next);
    hide Filed, PlacesExist, Start, Extend;
    forall k, v | 0 <= k < |filed| && 0 <= v < |filed[k].variants|
      ensures MadeOfRows(ids, rows + [next.row], filed[k].id, filed[k].variants[v])
    {
      if k != c || v < |content.variants| {
        var variant := p.contents[k].variants[v];
        OtherKeyMade(ids, rows, p.contents[k].id, variant, next);
      }
    }
  }

  lemma OtherKeyMade(ids: Ids, rows: seq<Row>, content: string, variant: Variant, next: Ranked)
    requires MadeOfRows(ids, rows, content, variant) && next.priority == |rows|
    requires Owner(ids, rows, (ids.content(next.row.identity), next.row.key)).None?
    ensures MadeOfRows(ids, rows + [next.row], content, variant)
  {
    OfPlaceMeans(ids, rows, (content, variant.key));
    MadeOfMore(ids, rows, content, variant, next);
    hide MadeOfRows;
  }

  lemma FiledMade(ids: Ids, rows: seq<Row>, p: Progress, c: nat, next: Ranked)
    requires |p.identities| == |p.contents| && PlacesExist(p) && VariantsFiled(ids, rows, p) && c < |p.contents|
    requires AllMade(ids, rows, p.contents) && next.priority == |rows|
    requires p.contents[c].id == ids.content(next.row.identity)
    requires (p.contents[c].id, next.row.key) in p.places <==> Owner(ids, rows, (p.contents[c].id, next.row.key)).Some?
    ensures AllMade(ids, rows + [next.row], Filed(ids, p, c, next).contents)
  {
    hide Filed, VariantsFiled, PlacesExist, Owner, AllMade;
    if (p.contents[c].id, next.row.key) in p.places {
      ExtendedMade(ids, rows, p, c, next);
    } else {
      StartedMade(ids, rows, p, c, next);
    }
  }

  lemma LabelledKeepsRest(ids: Ids, rows: seq<Row>, p: Progress, c: nat, row: Row)
    requires c < |p.contents|
    ensures AllHeaded(rows, p.identities, p.contents) ==> AllHeaded(rows, p.identities, Labelled(p, c, row).contents)
    ensures AllMade(ids, rows, p.contents) ==> AllMade(ids, rows, Labelled(p, c, row).contents)
  {
    hide OfIdentity, MadeOfRows, AddMissing;
    assert AllHeaded(rows, p.identities, p.contents) ==>
      forall k :: 0 <= k < |p.contents| ==> Headed(rows, p.identities[k], p.contents[k]);
  }

  /** Everything a title and its variants say, for the rows so far. */
  ghost predicate SaysItsRows(ids: Ids, rows: seq<Row>, identities: seq<Identity>, contents: seq<Content>) {
    AllHeaded(rows, identities, contents) && AllSpoken(rows, identities, contents) && AllMade(ids, rows, contents)
  }

  lemma RowIsSaid(ids: Ids, rows: seq<Row>, p: Progress, next: Ranked)
    requires Consistent(ids, rows, p) && SaysItsRows(ids, rows, p.identities, p.contents) && next.priority == |rows|
    ensures var after := AddRow(ids, p, next); SaysItsRows(ids, rows + [next.row], after.identities, after.contents)
  {
    var row, all := next.row, rows + [next.row];
    FoundIsConsistent(ids, rows, p, row);
    FoundHeaded(ids, rows, p, row);
    FoundSpoken(ids, rows, p, row);
    FoundMade(ids, rows, p, row);
    FirstsMean(IdentitiesOf(all));
    hide Owner, VariantsFiled, Firsts, IdentitiesOf, Found, Filed, IndexIn, PlacesExist, Distinct, AllMade,
      Headed, OfIdentity, LanguagesOf, Labelled;
    var found := Found(ids, p, row);
    var c := IndexIn(found.identities, row.identity);
    FiledMade(ids, rows, found, c, next);
    FiledKeepsTitles(ids, found, c, next);
    var filed := Filed(ids, found, c, next);
    FiledHeaded(all, found, filed);
    hide AllHeaded;
    LabelledSpoken(rows, filed, c, next);
    LabelledKeepsRest(ids, all, filed, c, row);
    assert Labelled(filed, c, row).identities == found.identities by { LabelledIdentities(filed, c, row); }
  }

  lemma LabelledIdentities(p: Progress, c: nat, row: Row)
    requires c < |p.contents|
    ensures Labelled(p, c, row).identities == p.identities
  {
  }

  lemma FiledHeaded(rows: seq<Row>, found: Progress, filed: Progress)
    requires AllHeaded(rows, found.identities, found.contents)
    requires filed.identities == found.identities && |filed.contents| == |found.contents|
    requires forall k :: 0 <= k < |found.contents| ==> filed.contents[k].heading == found.contents[k].heading
    ensures AllHeaded(rows, filed.identities, filed.contents)
  {
    hide OfIdentity;
    forall k | 0 <= k < |filed.contents|
      ensures Headed(rows, filed.identities[k], filed.contents[k])
    {
      assert Headed(rows, found.identities[k], found.contents[k]);
    }
  }

  // ----- the whole pass -----

  ghost function Adapters(content: Content): set<string> {
    set v, s | 0 <= v < |content.variants| && 0 <= s < |content.variants[v].sources| ::
      content.variants[v].sources[s].adapter
  }

  /** The title's total is the number of different adapters among the sources kept for it. */
  ghost predicate Totalled(content: Content) {
    content.totalSources == |Adapters(content)|
  }

  method CountSources(content: Content) returns (total: nat)
    ensures total == |Adapters(content)|
  {
    var seen: set<string> := {};
    for v := 0 to |content.variants|
      invariant seen == set a, s | 0 <= a < v && 0 <= s < |content.variants[a].sources| ::
                  content.variants[a].sources[s].adapter
    {
      var sources := content.variants[v].sources;
      ghost var before := seen;
      for s := 0 to |sources|
        invariant seen == before + set k | 0 <= k < s :: sources[k].adapter
      {
        seen := seen + {sources[s].adapter};
      }
    }
    total := |seen|;
  }

  /** Aggregation gives the reference grouping exactly when no two titles clash. */
  method Aggregate(ids: Ids, rows: seq<Row>) returns (contents: seq<Content>)
    ensures GroupsByIdentity(ids, rows, contents) <==> NoClash(ids, rows)
    ensures |contents| == |Firsts(IdentitiesOf(rows))|
    ensures forall c :: 0 <= c < |contents| ==>
              Totalled(contents[c]) && contents[c].id == ids.content(Firsts(IdentitiesOf(rows))[c])
    ensures KeepsOwnKeys(ids, rows, contents) && SourcesRise(contents, |rows|)
    ensures ListsOwnKeys(ids, rows, Firsts(IdentitiesOf(rows)), contents)
    ensures SaysItsRows(ids, rows, Firsts(IdentitiesOf(rows)), contents)
  {
    hide GroupsByIdentity, NoClash, Consistent, AddRow, KeepsOwnKeys, SourcesRise, Totalled, ListsOwnKeys, SaysItsRows;
    var p := Progress([], [], map[]);
    assert rows[..0] == [];
    NothingYet(ids);
    for i := 0 to |rows|
      invariant Consistent(ids, rows[..i], p)
      invariant NoClash(ids, rows[..i]) ==> GroupsByIdentity(ids, rows[..i], p.contents)
      invariant SourcesRise(p.contents, i) && ListsOwnKeys(ids, rows[..i], p.identities, p.contents)
      invariant SaysItsRows(ids, rows[..i], p.identities, p.contents)
    {
      var next := Ranked(rows[i], i);
      assert rows[..i + 1] == rows[..i] + [rows[i]];
      RowIsConsistent(ids, rows[..i], p, next);
      ClashStays(ids, rows[..i], rows[i]);
      if NoClash(ids, rows[..i + 1]) {
        RowIsGrouped(ids, rows[..i], p, next);
      }
      ConsistentPlaces(ids, rows[..i], p);
      RowKeepsRising(ids, p, next);
      RowKeepsLists(ids, rows[..i], p, next);
      RowIsSaid(ids, rows[..i], p, next);
      p := AddRow(ids, p, next);
    }
    assert rows[..|rows|] == rows;
    ConsistentPlaces(ids, rows, p);
    if !NoClash(ids, rows) {
      ClashBreaksGrouping(ids, rows, p);
    }
    ConsistentKeepsOwnKeys(ids, rows, p);
    contents := CountAll(p.contents);
    TotalsDoNotMatter(ids, rows, p.contents, contents);
    TotalsKeepVariants(ids, rows, p.contents, contents);
    TotalsSayNothing(ids, rows, p.identities, p.contents, contents);
  }

  ghost predicate SameButTotals(a: seq<Content>, b: seq<Content>) {
    |a| == |b| && forall k :: 0 <= k < |b| ==> b[k] == a[k].(totalSources := b[k].totalSources)
  }

  /** The loop that fills in the totals. */
  method CountAll(contents: seq<Content>) returns (counted: seq<Content>)
    ensures SameButTotals(contents, counted)
    ensures forall c :: 0 <= c < |counted| ==> Totalled(counted[c])
  {
    counted := contents;
    for c := 0 to |contents|
      invariant SameButTotals(contents, counted)
      invariant forall k :: 0 <= k < c ==> Totalled(counted[k])
    {
      var total := CountSources(counted[c]);
      assert Adapters(counted[c]) == Adapters(counted[c].(totalSources := total));
      counted := counted[c := counted[c].(totalSources := total)];
    }
  }

  lemma TotalsKeepVariants(ids: Ids, rows: seq<Row>, a: seq<Content>, b: seq<Content>)
    requires SameButTotals(a, b)
    ensures KeepsOwnKeys(ids, rows, a) ==> KeepsOwnKeys(ids, rows, b)
    ensures SourcesRise(a, |rows|) ==> SourcesRise(b, |rows|)
    ensures var identities := Firsts(IdentitiesOf(rows));
            ListsOwnKeys(ids, rows, identities, a) ==> ListsOwnKeys(ids, rows, identities, b)
  {
    hide Owner, Firsts, IdentitiesOf, VariantRises, OwnKeys, VariantsAre;
    forall c, key | 0 <= c < |a|
      ensures HasVariant(b[c], key) == HasVariant(a[c], key)
    {
    }
    hide HasVariant;
  }

  lemma TotalsSayNothing(ids: Ids, rows: seq<Row>, identities: seq<Identity>, a: seq<Content>, b: seq<Content>)
    requires SameButTotals(a, b) && SaysItsRows(ids, rows, identities, a)
    ensures SaysItsRows(ids, rows, identities, b)
  {
    hide OfIdentity, MadeOfRows, LanguagesOf;
    forall c | 0 <= c < |b|
      ensures Headed(rows, identities[c], b[c])
    {
      assert Headed(rows, identities[c], a[c]);
    }
  }

  lemma NothingYet(ids: Ids)
    ensures Consistent(ids, [], Progress([], [], map[])) && GroupsByIdentity(ids, [], [])
    ensures SourcesRise([], 0) && ListsOwnKeys(ids, [], [], []) && SaysItsRows(ids, [], [], [])
  {
  }

  lemma ConsistentPlaces(ids: Ids, rows: seq<Row>, p: Progress)
    requires Consistent(ids, rows, p)
    ensures PlacesExist(p) && |p.contents| == |Firsts(IdentitiesOf(rows))| && p.identities == Firsts(IdentitiesOf(rows))
    ensures forall c :: 0 <= c < |p.contents| ==> p.contents[c].id == ids.content(Firsts(IdentitiesOf(rows))[c])
  {
  }

  lemma ClashStays(ids: Ids, rows: seq<Row>, row: Row)
    ensures NoClash(ids, rows + [row]) ==> NoClash(ids, rows)
  {
    assert forall other <- rows :: other in rows + [row];
  }

  lemma TotalsDoNotMatter(ids: Ids, rows: seq<Row>, a: seq<Content>, b: seq<Content>)
    requires SameButTotals(a, b)
    ensures GroupsByIdentity(ids, rows, a) <==> GroupsByIdentity(ids, rows, b)
  {
    hide Firsts, IdentitiesOf, OfIdentity, GroupsByKey, LanguagesOf;
    forall k, identity, group | 0 <= k < |a|
      ensures Collects(ids, identity, group, a[k]) <==> Collects(ids, identity, group, b[k])
    {
    }
    hide Collects;
  }

  // ----- what is listed -----

  lemma {:induction false} OfIdentityHolds(rows: seq<Row>, identity: Identity)
    ensures forall i: nat :: i < |rows| && rows[i].identity == identity ==> Ranked(rows[i], i) in OfIdentity(rows, identity)
    ensures forall ranked <- OfIdentity(rows, identity) ::
              ranked.priority < |rows| && ranked.row == rows[ranked.priority] && ranked.row.identity == identity
  {
    if rows != [] {
      var last := |rows| - 1;
      OfIdentityHolds(rows[..last], identity);
      assert forall i: nat :: i < last ==> rows[..last][i] == rows[i];
    }
  }

  lemma {:induction false} OfPlaceHolds(ids: Ids, rows: seq<Row>, at: (string, VariantKey))
    ensures forall i: nat :: i < |rows| && ids.content(rows[i].identity) == at.0 && rows[i].key == at.1 ==>
              Ranked(rows[i], i) in OfPlace(ids, rows, at)
    ensures forall ranked <- OfPlace(ids, rows, at) ::
              && ranked.priority < |rows| && ranked.row == rows[ranked.priority]
              && ids.content(ranked.row.identity) == at.0 && ranked.row.key == at.1
  {
    if rows != [] {
      var last := |rows| - 1;
      OfPlaceHolds(ids, rows[..last], at);
      assert forall i: nat :: i < last ==> rows[..last][i] == rows[i];
    }
  }

  /** A title has the heading of its first row, and lists exactly the non-empty languages of its rows, each once and in
      the order in which they first appear over those rows. */
  lemma {:induction false} TitlesSayTheirRows(ids: Ids, rows: seq<Row>, contents: seq<Content>, c: nat)
    requires SaysItsRows(ids, rows, Firsts(IdentitiesOf(rows)), contents) && c < |contents|
    ensures var identity := Firsts(IdentitiesOf(rows))[c];
            var group := OfIdentity(rows, identity);
            && group != [] && RowsRise(group)
            && (forall i: nat :: i < |rows| ==> (rows[i].identity == identity <==> Ranked(rows[i], i) in group))
            && contents[c].heading == group[0].row.heading
            && (forall language :: language in contents[c].languages <==>
                  language != "" && exists row <- rows :: row.identity == identity && language in row.languages)
            && Distinct(contents[c].languages)
            && Completes([], LanguagesSaid(group), contents[c].languages)
  {
    var identity := Firsts(IdentitiesOf(rows))[c];
    assert Headed(rows, identity, contents[c]);
    OfIdentityHolds(rows, identity);
    RowsOfTitleRise(rows, identity);
    LanguagesAreThoseSaid(OfIdentity(rows, identity));
    hide Firsts, IdentitiesOf, OfIdentity, LanguagesOf, RowsRise, Completes, LanguagesSaid;
    CompletedFromNothing(LanguagesSaid(OfIdentity(rows, identity)), contents[c].languages);
    forall language
      ensures language in LanguagesSaid(OfIdentity(rows, identity)) <==>
                exists row <- rows :: row.identity == identity && language in row.languages
    {
      SaidInTitle(rows, identity, OfIdentity(rows, identity), language);
    }
  }

  lemma CompletedFromNothing(more: seq<string>, result: seq<string>)
    requires Completes([], more, result)
    ensures Distinct(result) && forall x :: x in result <==> x != "" && x in more
  {
    hide SeenFirst;
    assert result[0..] == result;
  }

  lemma SaidInTitle(rows: seq<Row>, identity: Identity, group: seq<Ranked>, language: string)
    requires forall i: nat :: i < |rows| && rows[i].identity == identity ==> Ranked(rows[i], i) in group
    requires forall ranked <- group ::
               ranked.priority < |rows| && ranked.row == rows[ranked.priority] && ranked.row.identity == identity
    ensures language in LanguagesSaid(group) <==>
              exists row <- rows :: row.identity == identity && language in row.languages
  {
    SaidBySome(group, language);
    if ranked :| ranked in group && language in ranked.row.languages {
      assert ranked.row in rows;
    }
    if row :| row in rows && row.identity == identity && language in row.languages {
      var i: nat :| i < |rows| && rows[i] == row;
      assert Ranked(rows[i], i) in group;
    }
  }

  /** A variant has the size of the first of the rows with its title's identifier and its key, of whatever titles; its
      qualities are that row's and then exactly the non-empty ones that the later rows add, none twice, in order of
      first appearance; and its sources are the first rows with each source identifier. */
  lemma {:induction false} VariantsSayTheirRows(ids: Ids, rows: seq<Row>, contents: seq<Content>, c: nat, v: nat)
    requires SaysItsRows(ids, rows, Firsts(IdentitiesOf(rows)), contents)
    requires c < |contents| && v < |contents[c].variants|
    ensures var variant := contents[c].variants[v];
            var group := OfPlace(ids, rows, (contents[c].id, variant.key));
            && group != [] && RowsRise(group)
            && (forall i: nat :: i < |rows| ==>
                  (ids.content(rows[i].identity) == contents[c].id && rows[i].key == variant.key
                   <==> Ranked(rows[i], i) in group))
            && variant.size == group[0].row.size
            && Completes(group[0].row.qualities, QualitiesSaid(group[1..]), variant.qualities)
            && SourcesOfRows(ids, group, variant.sources)
  {
    var variant := contents[c].variants[v];
    var at := (contents[c].id, variant.key);
    var group := OfPlace(ids, rows, at);
    assert MadeOfRows(ids, rows, contents[c].id, variant);
    OfPlaceHolds(ids, rows, at);
    OfPlaceMeans(ids, rows, at);
    QualitiesAreThoseSaid(ids, contents[c].id, group);
    SourcesAreFirsts(ids, contents[c].id, group);
    SizeIsFirst(ids, contents[c].id, group);
    hide *;
  }

  lemma {:induction false} SizeIsFirst(ids: Ids, content: string, group: seq<Ranked>)
    requires group != []
    ensures VariantOf(ids, content, group).size == group[0].row.size
  {
    if |group| > 1 {
      SizeIsFirst(ids, content, group[..|group| - 1]);
    }
  }

  /** Every source that is listed is made from the row at its priority, which has its variant's key and a title with
      its title's identifier. */
  lemma {:induction false} SourcesSayTheirRows(ids: Ids, rows: seq<Row>, contents: seq<Content>, c: nat, v: nat, s: nat)
    requires SaysItsRows(ids, rows, Firsts(IdentitiesOf(rows)), contents)
    requires c < |contents| && v < |contents[c].variants| && s < |contents[c].variants[v].sources|
    ensures var source := contents[c].variants[v].sources[s];
            && source.priority < |rows| && source.candidate == rows[source.priority]
            && source.adapter == source.candidate.adapter && source.display == source.candidate.display
            && source.id == ids.source(source.candidate.adapter, source.candidate.url)
            && source.candidate.key == contents[c].variants[v].key
            && ids.content(source.candidate.identity) == contents[c].id
  {
    VariantsSayTheirRows(ids, rows, contents, c, v);
    var variant := contents[c].variants[v];
    var at := (contents[c].id, variant.key);
    var group := OfPlace(ids, rows, at);
    OfPlaceHolds(ids, rows, at);
    hide SaysItsRows, Completes, RanksRise, Stands, OfPlace, Firsts, IdentitiesOf, RowsRise;
    assert variant.sources[s] in variant.sources;
    assert Comes(ids, group, variant.sources[s]);
    var ranked :| ranked in group && SourceOf(ids, ranked) == variant.sources[s];
  }
}
