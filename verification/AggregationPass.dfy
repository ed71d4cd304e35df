/** The one-pass aggregation of search rows, row by row. It files variants under the identifier of their title, so two
    titles with one identifier get in each other's way; otherwise it is the reference grouping. */
module AggregationPass {
  import opened Collections
  import opened Wrappers
  import opened Grouping

  /** The titles so far with their identities, and where each variant is. */
  datatype Progress = Progress(
    identities: seq<Identity>, contents: seq<Content>, places: map<(string, VariantKey), (nat, nat)>)

  // ----- one row -----

  function Found(ids: Ids, p: Progress, row: Row): (found: Progress)
    requires |p.identities| == |p.contents|
    ensures |found.identities| == |found.contents| && row.identity in found.identities
  {
    if row.identity in p.identities then p
    else p.(identities := p.identities + [row.identity],
            contents := p.contents + [Content(ids.content(row.identity), row.heading, [], [], 0)])
  }

  ghost predicate PlacesExist(p: Progress) {
    && |p.identities| == |p.contents|
    && forall at <- p.places :: Houses(p.contents, at, p.places[at])
  }

  predicate Houses(contents: seq<Content>, at: (string, VariantKey), place: (nat, nat)) {
    && place.0 < |contents| && place.1 < |contents[place.0].variants|
    && contents[place.0].id == at.0 && contents[place.0].variants[place.1].key == at.1
  }

  function Filed(ids: Ids, p: Progress, c: nat, next: Ranked): (filed: Progress)
    requires PlacesExist(p) && c < |p.contents|
  {
    var content := p.contents[c];
    var at := (content.id, next.row.key);
    if at in p.places then
      var (a, b) := p.places[at];
      var holder := p.contents[a];
      p.(contents := p.contents[a := holder.(variants := holder.variants[b := Extend(ids, holder.variants[b], next)])])
    else
      p.(contents := p.contents[c := content.(variants := content.variants + [Start(ids, content.id, next)])],
         places := p.places[at := (c, |content.variants|)])
  }

  function Labelled(p: Progress, c: nat, row: Row): Progress
    requires c < |p.contents|
  {
    p.(contents := p.contents[c := p.contents[c].(languages := AddMissing(p.contents[c].languages, row.languages))])
  }

  lemma FoundKeeps(ids: Ids, p: Progress, row: Row)
    requires PlacesExist(p)
    ensures PlacesExist(Found(ids, p, row))
  {
  }

  function AddRow(ids: Ids, p: Progress, next: Ranked): Progress
    requires PlacesExist(p)
  {
    FoundKeeps(ids, p, next.row);
    var found := Found(ids, p, next.row);
    var c := IndexIn(found.identities, next.row.identity);
    Labelled(Filed(ids, found, c, next), c, next.row)
  }

  // ----- what every row keeps -----

  /** The identity of the first row with this title identifier and variant key. */
  function Owner(ids: Ids, rows: seq<Row>, at: (string, VariantKey)): Option<Identity> {
    if rows == [] then None
    else
      var front, last := Owner(ids, rows[..|rows| - 1], at), rows[|rows| - 1];
      if front.Some? then front
      else if ids.content(last.identity) == at.0 && last.key == at.1 then Some(last.identity)
      else None
  }

  lemma OwnerAppends(ids: Ids, rows: seq<Row>, row: Row, at: (string, VariantKey))
    ensures Owner(ids, rows + [row], at) ==
            if Owner(ids, rows, at).Some? then Owner(ids, rows, at)
            else if ids.content(row.identity) == at.0 && row.key == at.1 then Some(row.identity)
            else None
  {
    assert (rows + [row])[..|rows|] == rows;
  }

  /** Every variant is filed at its own place, under the identity that first used its identifier and key. */
  ghost predicate VariantsFiled(ids: Ids, rows: seq<Row>, p: Progress)
    requires |p.identities| == |p.contents|
  {
    forall c, v :: 0 <= c < |p.contents| && 0 <= v < |p.contents[c].variants| ==> FiledAt(ids, rows, p, c, v)
  }

  ghost predicate FiledAt(ids: Ids, rows: seq<Row>, p: Progress, c: nat, v: nat)
    requires |p.identities| == |p.contents| && c < |p.contents| && v < |p.contents[c].variants|
  {
    var at := (p.contents[c].id, p.contents[c].variants[v].key);
    at in p.places && p.places[at] == (c, v) && Owner(ids, rows, at) == Some(p.identities[c])
  }

  ghost predicate Consistent(ids: Ids, rows: seq<Row>, p: Progress) {
    && p.identities == Firsts(IdentitiesOf(rows))
    && PlacesExist(p)
    && (forall c :: 0 <= c < |p.contents| ==> p.contents[c].id == ids.content(p.identities[c]))
    && (forall at :: at in p.places <==> Owner(ids, rows, at).Some?)
    && VariantsFiled(ids, rows, p)
  }

  lemma FoundIdentities(ids: Ids, rows: seq<Row>, p: Progress, row: Row)
    requires |p.identities| == |p.contents| && p.identities == Firsts(IdentitiesOf(rows))
    ensures Found(ids, p, row).identities == Firsts(IdentitiesOf(rows + [row]))
  {
    IdentityAppends(rows, row, row.identity);
    FirstsMean(IdentitiesOf(rows));
    FirstsAppend(IdentitiesOf(rows), row.identity);
    hide Firsts, IdentitiesOf;
  }

  lemma FoundContents(ids: Ids, p: Progress, row: Row)
    requires |p.identities| == |p.contents|
    requires forall c :: 0 <= c < |p.contents| ==> p.contents[c].id == ids.content(p.identities[c])
    ensures var found := Found(ids, p, row);
            && found.places == p.places && |found.identities| == |found.contents| >= |p.contents|
            && (forall c :: 0 <= c < |found.contents| ==> found.contents[c].id == ids.content(found.identities[c]))
            && (forall c :: 0 <= c < |p.contents| ==>
                  found.contents[c] == p.contents[c] && found.identities[c] == p.identities[c])
            && (forall c :: |p.contents| <= c < |found.contents| ==> found.contents[c].variants == [])
  {
  }

  lemma FoundFiled(ids: Ids, rows: seq<Row>, p: Progress, found: Progress)
    requires |p.identities| == |p.contents| && VariantsFiled(ids, rows, p)
    requires found.places == p.places && |found.identities| == |found.contents| >= |p.contents|
    requires forall c :: 0 <= c < |p.contents| ==>
               found.contents[c] == p.contents[c] && found.identities[c] == p.identities[c]
    requires forall c :: |p.contents| <= c < |found.contents| ==> found.contents[c].variants == []
    ensures VariantsFiled(ids, rows, found)
  {
    hide Owner;
    forall c, v | 0 <= c < |found.contents| && 0 <= v < |found.contents[c].variants|
      ensures FiledAt(ids, rows, found, c, v)
    {
      assert FiledAt(ids, rows, p, c, v);
    }
  }

  lemma FoundIsConsistent(ids: Ids, rows: seq<Row>, p: Progress, row: Row)
    requires Consistent(ids, rows, p)
    ensures var found := Found(ids, p, row);
            && PlacesExist(found) && found.identities == Firsts(IdentitiesOf(rows + [row]))
            && found.places == p.places
            && |found.identities| == |found.contents|
            && (forall c :: 0 <= c < |found.contents| ==> found.contents[c].id == ids.content(found.identities[c]))
            && VariantsFiled(ids, rows, found)
  {
    hide Firsts, IdentitiesOf, Found, Owner, VariantsFiled;
    assert |p.identities| == |p.contents|;
    FoundKeeps(ids, p, row);
    hide PlacesExist;
    FoundIdentities(ids, rows, p, row);
    FoundContents(ids, p, row);
    FoundFiled(ids, rows, p, Found(ids, p, row));
  }

  /** Extending a variant changes neither where it is nor its key. */
  lemma ExtendingKeeps(ids: Ids, rows: seq<Row>, p: Progress, c: nat, next: Ranked)
    requires |p.identities| == |p.contents| && PlacesExist(p) && c < |p.contents|
    requires VariantsFiled(ids, rows, p) && (p.contents[c].id, next.row.key) in p.places
    ensures var filed := Filed(ids, p, c, next);
            && PlacesExist(filed) && filed.identities == p.identities && filed.places == p.places
            && |filed.contents| == |p.contents|
            && (forall k :: 0 <= k < |p.contents| ==> filed.contents[k].id == p.contents[k].id)
            && VariantsFiled(ids, rows, filed)
  {
    ExtendKeepsKeys(ids, p, c, next);
    hide Extend, Owner, Filed;
    var filed := Filed(ids, p, c, next);
    forall k, v | 0 <= k < |filed.contents| && 0 <= v < |filed.contents[k].variants|
      ensures FiledAt(ids, rows, filed, k, v)
    {
      assert FiledAt(ids, rows, p, k, v);
    }
  }

  lemma KeysStay(contents: seq<Content>, a: nat, b: nat, variant: Variant)
    requires a < |contents| && b < |contents[a].variants| && variant.key == contents[a].variants[b].key
    ensures var after := contents[a := contents[a].(variants := contents[a].variants[b := variant])];
            forall k :: 0 <= k < |contents| ==>
              && after[k].id == contents[k].id && |after[k].variants| == |contents[k].variants|
              && forall v :: 0 <= v < |contents[k].variants| ==> after[k].variants[v].key == contents[k].variants[v].key
  {
  }

  lemma ExtendKeepsKeys(ids: Ids, p: Progress, c: nat, next: Ranked)
    requires PlacesExist(p) && c < |p.contents| && (p.contents[c].id, next.row.key) in p.places
    ensures var filed := Filed(ids, p, c, next);
            && filed.identities == p.identities && filed.places == p.places
            && |filed.contents| == |p.contents|
            && forall k :: 0 <= k < |p.contents| ==>
                 && filed.contents[k].id == p.contents[k].id
                 && |filed.contents[k].variants| == |p.contents[k].variants|
                 && forall v :: 0 <= v < |p.contents[k].variants| ==>
                      filed.contents[k].variants[v].key == p.contents[k].variants[v].key
  {
    var (a, b) := p.places[(p.contents[c].id, next.row.key)];
    var variant := Extend(ids, p.contents[a].variants[b], next);
    assert variant.key == p.contents[a].variants[b].key;
    var contents := p.contents[a := p.contents[a].(variants := p.contents[a].variants[b := variant])];
    assert Filed(ids, p, c, next) == p.(contents := contents);
    hide PlacesExist, Filed, Extend;
    KeysStay(p.contents, a, b, variant);
  }

  /** The variants of all titles but this one are as they were, and this one has one more. */
  ghost predicate OneMoreVariant(before: seq<Content>, after: seq<Content>, c: nat, key: VariantKey) {
    && c < |before| == |after|
    && (forall k :: 0 <= k < |before| ==> after[k].id == before[k].id && (k != c ==> after[k] == before[k]))
    && |after[c].variants| == |before[c].variants| + 1
    && (forall v :: 0 <= v < |before[c].variants| ==> after[c].variants[v] == before[c].variants[v])
    && after[c].variants[|before[c].variants|].key == key
  }

  lemma StartedShape(ids: Ids, p: Progress, c: nat, next: Ranked)
    requires PlacesExist(p) && c < |p.contents| && (p.contents[c].id, next.row.key) !in p.places
    ensures var filed := Filed(ids, p, c, next);
            && filed.identities == p.identities
            && filed.places == p.places[(p.contents[c].id, next.row.key) := (c, |p.contents[c].variants|)]
            && OneMoreVariant(p.contents, filed.contents, c, next.row.key)
  {
    hide PlacesExist;
  }

  lemma StartedPlaces(p: Progress, filed: Progress, c: nat, key: VariantKey)
    requires PlacesExist(p) && c < |p.contents| && filed.identities == p.identities
    requires filed.places == p.places[(p.contents[c].id, key) := (c, |p.contents[c].variants|)]
    requires OneMoreVariant(p.contents, filed.contents, c, key)
    ensures PlacesExist(filed)
  {
    forall at <- filed.places
      ensures Houses(filed.contents, at, filed.places[at])
    {
      if at != (p.contents[c].id, key) {
        assert Houses(p.contents, at, p.places[at]);
      }
    }
  }

  lemma StartedFiled(ids: Ids, rows: seq<Row>, p: Progress, filed: Progress, c: nat, row: Row)
    requires |p.identities| == |p.contents| && VariantsFiled(ids, rows, p) && c < |p.contents|
    requires p.contents[c].id == ids.content(row.identity) && p.identities[c] == row.identity
    requires (p.contents[c].id, row.key) !in p.places && Owner(ids, rows, (p.contents[c].id, row.key)).None?
    requires filed.identities == p.identities
    requires filed.places == p.places[(p.contents[c].id, row.key) := (c, |p.contents[c].variants|)]
    requires OneMoreVariant(p.contents, filed.contents, c, row.key)
    ensures VariantsFiled(ids, rows + [row], filed)
  {
    OwnerAppends(ids, rows, row, (p.contents[c].id, row.key));
    hide Owner;
    forall k, v | 0 <= k < |filed.contents| && 0 <= v < |filed.contents[k].variants|
      ensures FiledAt(ids, rows + [row], filed, k, v)
    {
      if k != c || v < |p.contents[c].variants| {
        assert FiledAt(ids, rows, p, k, v);
        OwnerAppends(ids, rows, row, (p.contents[k].id, p.contents[k].variants[v].key));
      }
    }
  }

  /** A variant that is started is filed under the identity of its row, the first with its identifier and key. */
  lemma StartingKeeps(ids: Ids, rows: seq<Row>, p: Progress, c: nat, next: Ranked)
    requires |p.identities| == |p.contents| && PlacesExist(p) && c < |p.contents|
    requires p.contents[c].id == ids.content(next.row.identity) && p.identities[c] == next.row.identity
    requires VariantsFiled(ids, rows, p) && (p.contents[c].id, next.row.key) !in p.places
    requires Owner(ids, rows, (p.contents[c].id, next.row.key)).None?
    ensures var filed := Filed(ids, p, c, next);
            && PlacesExist(filed) && filed.identities == p.identities
            && filed.places == p.places[(p.contents[c].id, next.row.key) := (c, |p.contents[c].variants|)]
            && |filed.contents| == |p.contents|
            && (forall k :: 0 <= k < |p.contents| ==> filed.contents[k].id == p.contents[k].id)
            && VariantsFiled(ids, rows + [next.row], filed)
  {
    hide Filed, VariantsFiled, PlacesExist, Owner;
    var filed := Filed(ids, p, c, next);
    StartedShape(ids, p, c, next);
    StartedPlaces(p, filed, c, next.row.key);
    StartedFiled(ids, rows, p, filed, c, next.row);
  }

  lemma {:induction false} OwnerMeans(ids: Ids, rows: seq<Row>, at: (string, VariantKey))
    ensures var owner := Owner(ids, rows, at);
            owner.Some? ==> ids.content(owner.value) == at.0 && HasRow(rows, owner.value, at.1)
    ensures forall row <- rows :: ids.content(row.identity) == at.0 && row.key == at.1 ==> Owner(ids, rows, at).Some?
  {
    if rows != [] {
      var front, last := rows[..|rows| - 1], rows[|rows| - 1];
      assert rows == front + [last];
      OwnerMeans(ids, front, at);
      var owner := Owner(ids, rows, at);
      if owner.Some? {
        HasRowAppends(front, last, owner.value, at.1);
      }
    }
  }

  lemma LabelledKeeps(ids: Ids, rows: seq<Row>, p: Progress, c: nat, row: Row)
    requires |p.identities| == |p.contents| && PlacesExist(p) && c < |p.contents| && VariantsFiled(ids, rows, p)
    ensures var labelled := Labelled(p, c, row);
            && PlacesExist(labelled) && VariantsFiled(ids, rows, labelled)
            && labelled.identities == p.identities && labelled.places == p.places
            && |labelled.contents| == |p.contents|
            && forall k :: 0 <= k < |p.contents| ==> labelled.contents[k].id == p.contents[k].id
  {
    hide Owner;
    var labelled := Labelled(p, c, row);
    forall k, v | 0 <= k < |labelled.contents| && 0 <= v < |labelled.contents[k].variants|
      ensures FiledAt(ids, rows, labelled, k, v)
    {
      assert FiledAt(ids, rows, p, k, v);
    }
  }

  /** Filing under a place that exists already keeps the first owner, whatever the new row is. */
  lemma OwnersStay(ids: Ids, rows: seq<Row>, p: Progress, row: Row)
    requires |p.identities| == |p.contents| && VariantsFiled(ids, rows, p)
    ensures VariantsFiled(ids, rows + [row], p)
  {
    hide Owner;
    forall c, v | 0 <= c < |p.contents| && 0 <= v < |p.contents[c].variants|
      ensures FiledAt(ids, rows + [row], p, c, v)
    {
      assert FiledAt(ids, rows, p, c, v);
      OwnerAppends(ids, rows, row, (p.contents[c].id, p.contents[c].variants[v].key));
    }
  }

  lemma PlacesMatch(
    ids: Ids, rows: seq<Row>, row: Row, before: set<(string, VariantKey)>, after: set<(string, VariantKey)>)
    requires forall at :: at in before <==> Owner(ids, rows, at).Some?
    requires after == before + {(ids.content(row.identity), row.key)}
    ensures forall at :: at in after <==> Owner(ids, rows + [row], at).Some?
  {
    forall at
      ensures at in after <==> Owner(ids, rows + [row], at).Some?
    {
      OwnerAppends(ids, rows, row, at);
    }
  }

  lemma FiledIsConsistent(ids: Ids, rows: seq<Row>, found: Progress, c: nat, next: Ranked)
    requires PlacesExist(found) && c < |found.contents| && found.identities[c] == next.row.identity
    requires found.contents[c].id == ids.content(next.row.identity)
    requires VariantsFiled(ids, rows, found)
    requires forall at :: at in found.places.Keys <==> Owner(ids, rows, at).Some?
    ensures var filed := Filed(ids, found, c, next);
            && PlacesExist(filed) && filed.identities == found.identities
            && |filed.contents| == |found.contents| == |found.identities|
            && (forall k :: 0 <= k < |found.contents| ==> filed.contents[k].id == found.contents[k].id)
            && VariantsFiled(ids, rows + [next.row], filed)
            && filed.places.Keys == found.places.Keys + {(found.contents[c].id, next.row.key)}
  {
    hide Filed, VariantsFiled, Owner;
    var at := (found.contents[c].id, next.row.key);
    assert at in found.places <==> at in found.places.Keys;
    if at in found.places {
      ExtendingKeeps(ids, rows, found, c, next);
      OwnersStay(ids, rows, Filed(ids, found, c, next), next.row);
    } else {
      StartingKeeps(ids, rows, found, c, next);
    }
    hide PlacesExist;
  }

  lemma LabelledIsConsistent(ids: Ids, rows: seq<Row>, filed: Progress, c: nat, row: Row)
    requires PlacesExist(filed) && c < |filed.contents| && VariantsFiled(ids, rows, filed)
    requires filed.identities == Firsts(IdentitiesOf(rows))
    requires forall k :: 0 <= k < |filed.contents| ==> filed.contents[k].id == ids.content(filed.identities[k])
    requires forall at :: at in filed.places.Keys <==> Owner(ids, rows, at).Some?
    ensures Consistent(ids, rows, Labelled(filed, c, row))
  {
    LabelledKeeps(ids, rows, filed, c, row);
    hide Owner, VariantsFiled, PlacesExist, Firsts, IdentitiesOf, Labelled;
  }

  lemma FoundRowIsConsistent(ids: Ids, rows: seq<Row>, found: Progress, c: nat, next: Ranked)
    requires PlacesExist(found) && c < |found.contents| && found.identities[c] == next.row.identity
    requires found.identities == Firsts(IdentitiesOf(rows + [next.row]))
    requires forall k :: 0 <= k < |found.contents| ==> found.contents[k].id == ids.content(found.identities[k])
    requires forall at :: at in found.places.Keys <==> Owner(ids, rows, at).Some?
    requires VariantsFiled(ids, rows, found)
    ensures Consistent(ids, rows + [next.row], Labelled(Filed(ids, found, c, next), c, next.row))
  {
    hide *;
    FiledIsConsistent(ids, rows, found, c, next);
    var filed := Filed(ids, found, c, next);
    PlacesMatch(ids, rows, next.row, found.places.Keys, filed.places.Keys);
    LabelledIsConsistent(ids, rows + [next.row], filed, c, next.row);
  }

  lemma RowIsConsistent(ids: Ids, rows: seq<Row>, p: Progress, next: Ranked)
    requires Consistent(ids, rows, p)
    ensures Consistent(ids, rows + [next.row], AddRow(ids, p, next))
  {
    FoundIsConsistent(ids, rows, p, next.row);
    hide Owner, VariantsFiled, Firsts, IdentitiesOf, Found, Filed, Labelled, IndexIn, PlacesExist;
    var found := Found(ids, p, next.row);
    var c := IndexIn(found.identities, next.row.identity);
    assert forall at :: at in found.places.Keys <==> Owner(ids, rows, at).Some?;
    FoundRowIsConsistent(ids, rows, found, c, next);
  }

  // ----- when the pass is the grouping -----

  /** No two rows of different titles share a title identifier and a variant key. */
  ghost predicate NoClash(ids: Ids, rows: seq<Row>) {
    forall a <- rows, b <- rows :: Clashes(ids, a, b) ==> a.identity == b.identity
  }

  predicate Clashes(ids: Ids, a: Row, b: Row) {
    ids.content(a.identity) == ids.content(b.identity) && a.key == b.key
  }

  /** Without a clash a place exists exactly when the title already has a row with the key. */
  lemma PlaceMeansKey(ids: Ids, rows: seq<Row>, row: Row)
    requires NoClash(ids, rows + [row])
    ensures Owner(ids, rows, (ids.content(row.identity), row.key)).Some? <==> HasRow(rows, row.identity, row.key)
  {
    var at := (ids.content(row.identity), row.key);
    OwnerMeans(ids, rows, at);
    hide Owner;
    assert row in rows + [row] && forall other <- rows :: other in rows + [row];
    if Owner(ids, rows, at).Some? {
      var other :| other in rows && other.identity == Owner(ids, rows, at).value && other.key == row.key;
      assert Clashes(ids, other, row);
    }
  }

  lemma OwnVariant(ids: Ids, p: Progress, c: nat, keys: seq<VariantKey>, next: Ranked)
    requires PlacesExist(p) && c < |p.contents| && |keys| == |p.contents[c].variants|
    requires (p.contents[c].id, next.row.key) in p.places <==> next.row.key in keys
    requires next.row.key in keys ==> p.places[(p.contents[c].id, next.row.key)] == (c, IndexIn(keys, next.row.key))
    ensures var content := p.contents[c];
            Labelled(Filed(ids, p, c, next), c, next.row).contents ==
            p.contents[c := content.(languages := AddMissing(content.languages, next.row.languages),
                                     variants := Grown(ids, content.id, keys, content.variants, next))]
  {
    hide Extend, Start, AddMissing, IndexIn;
  }

  /** Without a clash a row changes its own title as the grouping does. */
  lemma KnownTitleGrows(ids: Ids, rows: seq<Row>, p: Progress, next: Ranked)
    requires Consistent(ids, rows, p) && GroupsByIdentity(ids, rows, p.contents)
    requires NoClash(ids, rows + [next.row]) && next.row.identity in p.identities
    ensures var c, group := IndexIn(p.identities, next.row.identity), OfIdentity(rows, next.row.identity);
            && |Firsts(KeysOf(group))| == |p.contents[c].variants|
            && AddRow(ids, p, next).contents == p.contents[c := ContentGrown(ids, group, p.contents[c], next)]
  {
    var row := next.row;
    var c, group := IndexIn(p.identities, row.identity), OfIdentity(rows, row.identity);
    var content, keys := p.contents[c], Firsts(KeysOf(group));
    PlaceMeansKey(ids, rows, row);
    OfIdentityKeys(rows, row.identity, row.key);
    FirstsMean(KeysOf(group));
    assert Collects(ids, row.identity, group, content);
    VariantKeys(ids, content.id, group, content.variants);
    hide Owner, IdentitiesOf, Firsts, KeysOf, OfIdentity, GroupsByKey, GroupsByIdentity, NoClash, HasRow, Distinct,
      Grown, Filed, Labelled;
    assert (content.id, row.key) in p.places <==> row.key in keys;
    if row.key in keys {
      assert FiledAt(ids, rows, p, c, IndexIn(keys, row.key));
    }
    hide IndexIn, VariantsFiled;
    OwnVariant(ids, p, c, keys, next);
  }

  lemma FreshVariant(ids: Ids, p: Progress, next: Ranked)
    requires PlacesExist(p) && next.row.identity !in p.identities
    requires (ids.content(next.row.identity), next.row.key) !in p.places
    ensures AddRow(ids, p, next).contents == p.contents + [NewContent(ids, next)]
  {
    hide Start, AddMissing, IndexIn;
    FoundKeeps(ids, p, next.row);
    var found := Found(ids, p, next.row);
    var c := |p.contents|;
    assert IndexIn(found.identities, next.row.identity) == c by {
      assert found.identities == p.identities + [next.row.identity];
    }
    var filed := Filed(ids, found, c, next);
    var labelled := Labelled(filed, c, next.row);
    assert labelled.contents == p.contents + [labelled.contents[c]];
    assert labelled.contents[c].languages == AddMissing([], next.row.languages);
    assert labelled.contents[c].variants == [Start(ids, found.contents[c].id, next)];
    assert filed.contents == p.contents + [found.contents[c].(variants := [] + [Start(ids, found.contents[c].id, next)])];
  }

  lemma NewTitleStarts(ids: Ids, rows: seq<Row>, p: Progress, next: Ranked)
    requires Consistent(ids, rows, p) && next.row.identity !in p.identities
    requires NoClash(ids, rows + [next.row])
    ensures AddRow(ids, p, next).contents == p.contents + [NewContent(ids, next)]
    ensures OfIdentity(rows, next.row.identity) == []
  {
    var row := next.row;
    PlaceMeansKey(ids, rows, row);
    OfIdentityMeans(rows, row.identity);
    FirstsMean(IdentitiesOf(rows));
    assert KeysOf([]) == [];
    OfIdentityKeys(rows, row.identity, row.key);
    hide Owner, IdentitiesOf, Firsts, KeysOf, OfIdentity, VariantsFiled;
    FreshVariant(ids, p, next);
  }

  lemma OthersKeepTheirRows(rows: seq<Row>, row: Row, identity: Identity)
    requires identity != row.identity
    ensures OfIdentity(rows + [row], identity) == OfIdentity(rows, identity)
  {
    IdentityAppends(rows, row, identity);
  }

  /** The grouping with one more row of a known title. */
  lemma KnownTitleGrouped(ids: Ids, rows: seq<Row>, contents: seq<Content>, next: Ranked, c: nat, grown: Content)
    requires GroupsByIdentity(ids, rows, contents) && next.priority == |rows| && c < |contents|
    requires Firsts(IdentitiesOf(rows))[c] == next.row.identity
    requires Collects(ids, next.row.identity, OfIdentity(rows, next.row.identity) + [next], grown)
    ensures GroupsByIdentity(ids, rows + [next.row], contents[c := grown])
  {
    var row, all := next.row, rows + [next.row];
    var identities := Firsts(IdentitiesOf(rows));
    IdentityAppends(rows, row, row.identity);
    FirstsMean(IdentitiesOf(rows));
    FirstsAppend(IdentitiesOf(rows), row.identity);
    assert Firsts(IdentitiesOf(all)) == identities;
    hide Firsts, IdentitiesOf, OfIdentity, Collects;
    forall k | 0 <= k < |identities|
      ensures Collects(ids, identities[k], OfIdentity(all, identities[k]), contents[c := grown][k])
    {
      if k != c {
        assert identities[k] != identities[c];
        OthersKeepTheirRows(rows, row, identities[k]);
      }
    }
  }

  /** The grouping with the first row of a new title. */
  lemma NewTitleGrouped(ids: Ids, rows: seq<Row>, contents: seq<Content>, next: Ranked, begun: Content)
    requires GroupsByIdentity(ids, rows, contents) && next.priority == |rows|
    requires next.row.identity !in Firsts(IdentitiesOf(rows)) && OfIdentity(rows, next.row.identity) == []
    requires Collects(ids, next.row.identity, [next], begun)
    ensures GroupsByIdentity(ids, rows + [next.row], contents + [begun])
  {
    var row, all := next.row, rows + [next.row];
    var identities := Firsts(IdentitiesOf(rows));
    IdentityAppends(rows, row, row.identity);
    FirstsMean(IdentitiesOf(rows));
    FirstsAppend(IdentitiesOf(rows), row.identity);
    assert Firsts(IdentitiesOf(all)) == identities + [row.identity];
    assert OfIdentity(all, row.identity) == [next];
    hide Firsts, IdentitiesOf, OfIdentity, Collects;
    forall k | 0 <= k <= |identities|
      ensures var identity := (identities + [row.identity])[k];
              Collects(ids, identity, OfIdentity(all, identity), (contents + [begun])[k])
    {
      if k < |identities| {
        OthersKeepTheirRows(rows, row, identities[k]);
      }
    }
  }

  lemma RowIsGrouped(ids: Ids, rows: seq<Row>, p: Progress, next: Ranked)
    requires Consistent(ids, rows, p) && GroupsByIdentity(ids, rows, p.contents)
    requires NoClash(ids, rows + [next.row]) && next.priority == |rows|
    ensures GroupsByIdentity(ids, rows + [next.row], AddRow(ids, p, next).contents)
  {
    var identity, group := next.row.identity, OfIdentity(rows, next.row.identity);
    hide NoClash, Owner, VariantsFiled, Firsts, IdentitiesOf, OfIdentity, Collects, KeysOf, ContentGrown, NewContent, AddRow;
    if identity in p.identities {
      var c := IndexIn(p.identities, identity);
      KnownTitleGrows(ids, rows, p, next);
      assert Collects(ids, identity, group, p.contents[c]);
      ContentGrows(ids, identity, group, p.contents[c], next);
      KnownTitleGrouped(ids, rows, p.contents, next, c, ContentGrown(ids, group, p.contents[c], next));
    } else {
      NewTitleStarts(ids, rows, p, next);
      NewContentCollects(ids, next);
      NewTitleGrouped(ids, rows, p.contents, next, NewContent(ids, next));
    }
  }

  /** If the pass gave the grouping, every row's title is the first with its identifier and key. */
  lemma GroupedRowsOwn(ids: Ids, rows: seq<Row>, p: Progress, row: Row)
    requires Consistent(ids, rows, p) && GroupsByIdentity(ids, rows, p.contents) && row in rows
    ensures Owner(ids, rows, (ids.content(row.identity), row.key)) == Some(row.identity)
  {
    var identity, key := row.identity, row.key;
    var group := OfIdentity(rows, identity);
    assert HasRow(rows, identity, key);
    OfIdentityKeys(rows, identity, key);
    OfIdentityMeans(rows, identity);
    FirstsMean(IdentitiesOf(rows));
    FirstsMean(KeysOf(group));
    assert group != [];
    var c := IndexIn(p.identities, identity);
    assert Collects(ids, identity, group, p.contents[c]);
    VariantKeys(ids, p.contents[c].id, group, p.contents[c].variants);
    var v := IndexIn(Firsts(KeysOf(group)), key);
    assert FiledAt(ids, rows, p, c, v);
  }

  /** With a clash some title lacks a variant that the grouping gives it. */
  lemma ClashBreaksGrouping(ids: Ids, rows: seq<Row>, p: Progress)
    requires Consistent(ids, rows, p) && !NoClash(ids, rows)
    ensures !GroupsByIdentity(ids, rows, p.contents)
  {
    hide Consistent, GroupsByIdentity, Owner;
    var a, b :| a in rows && b in rows && Clashes(ids, a, b) && a.identity != b.identity;
    if GroupsByIdentity(ids, rows, p.contents) {
      GroupedRowsOwn(ids, rows, p, a);
      GroupedRowsOwn(ids, rows, p, b);
      assert false;
    }
  }

  // ----- what each title ends with, clash or not -----

  ghost predicate HasVariant(content: Content, key: VariantKey) {
    exists variant <- content.variants :: variant.key == key
  }

  /** A title's variants have different keys, and they are exactly the keys that one of its rows was the first to
      use with the title's identifier. */
  ghost predicate KeepsOwnKeys(ids: Ids, rows: seq<Row>, contents: seq<Content>) {
    var identities := Firsts(IdentitiesOf(rows));
    && |contents| == |identities|
    && forall c :: 0 <= c < |contents| ==>
         && (forall v, w :: 0 <= v < w < |contents[c].variants| ==> contents[c].variants[v].key != contents[c].variants[w].key)
         && (forall key :: HasVariant(contents[c], key) <==> Owner(ids, rows, (contents[c].id, key)) == Some(identities[c]))
  }

  lemma ConsistentKeepsOwnKeys(ids: Ids, rows: seq<Row>, p: Progress)
    requires Consistent(ids, rows, p)
    ensures KeepsOwnKeys(ids, rows, p.contents)
  {
    FirstsMean(IdentitiesOf(rows));
    hide Owner, Firsts, IdentitiesOf;
    forall c | 0 <= c < |p.contents|
      ensures forall v, w :: 0 <= v < w < |p.contents[c].variants| ==>
                p.contents[c].variants[v].key != p.contents[c].variants[w].key
      ensures forall key :: HasVariant(p.contents[c], key) <==>
                Owner(ids, rows, (p.contents[c].id, key)) == Some(p.identities[c])
    {
      KeysFiledOnce(ids, rows, p, c);
      forall key
        ensures HasVariant(p.contents[c], key) <==> Owner(ids, rows, (p.contents[c].id, key)) == Some(p.identities[c])
      {
        VariantIsOwned(ids, rows, p, c, key);
      }
    }
  }

  lemma KeysFiledOnce(ids: Ids, rows: seq<Row>, p: Progress, c: nat)
    requires |p.identities| == |p.contents| && VariantsFiled(ids, rows, p) && c < |p.contents|
    ensures forall v, w :: 0 <= v < w < |p.contents[c].variants| ==>
              p.contents[c].variants[v].key != p.contents[c].variants[w].key
  {
    hide Owner;
    forall v, w | 0 <= v < w < |p.contents[c].variants|
      ensures p.contents[c].variants[v].key != p.contents[c].variants[w].key
    {
      assert FiledAt(ids, rows, p, c, v) && FiledAt(ids, rows, p, c, w);
    }
  }

  lemma VariantIsOwned(ids: Ids, rows: seq<Row>, p: Progress, c: nat, key: VariantKey)
    requires Consistent(ids, rows, p) && c < |p.contents| && Distinct(p.identities)
    ensures HasVariant(p.contents[c], key) <==> Owner(ids, rows, (p.contents[c].id, key)) == Some(p.identities[c])
  {
    hide Owner, Firsts, IdentitiesOf;
    var at := (p.contents[c].id, key);
    if HasVariant(p.contents[c], key) {
      var v :| 0 <= v < |p.contents[c].variants| && p.contents[c].variants[v].key == key;
      assert FiledAt(ids, rows, p, c, v);
    }
    if Owner(ids, rows, at) == Some(p.identities[c]) {
      assert at in p.places;
      var (a, b) := p.places[at];
      assert Houses(p.contents, at, p.places[at]);
      assert FiledAt(ids, rows, p, a, b);
      assert a == c;
      assert p.contents[c].variants[b] in p.contents[c].variants;
    }
  }

  /** A title ends up without a variant exactly if each of its rows uses a key that another title with its
      identifier used first. */
  lemma ClashesLeaveATitleEmpty(ids: Ids, rows: seq<Row>, contents: seq<Content>, c: nat)
    requires KeepsOwnKeys(ids, rows, contents) && c < |contents|
    requires contents[c].id == ids.content(Firsts(IdentitiesOf(rows))[c])
    ensures contents[c].variants == [] <==>
              forall row <- rows :: row.identity == Firsts(IdentitiesOf(rows))[c] ==>
                Owner(ids, rows, (contents[c].id, row.key)) != Some(row.identity)
  {
    hide Owner, Firsts, IdentitiesOf;
    var identity := Firsts(IdentitiesOf(rows))[c];
    if contents[c].variants == [] {
      forall row <- rows | row.identity == identity
        ensures Owner(ids, rows, (contents[c].id, row.key)) != Some(identity)
      {
        assert !HasVariant(contents[c], row.key);
      }
    } else {
      var key := contents[c].variants[0].key;
      assert contents[c].variants[0] in contents[c].variants && HasVariant(contents[c], key);
      OwnerMeans(ids, rows, (contents[c].id, key));
      assert HasRow(rows, identity, key);
    }
  }

  /** Every variant's sources rise in priority, all below a bound. */
  ghost predicate SourcesRise(contents: seq<Content>, bound: nat) {
    forall c, v :: 0 <= c < |contents| && 0 <= v < |contents[c].variants| ==> VariantRises(contents[c].variants[v], bound)
  }

  ghost predicate VariantRises(variant: Variant, bound: nat) {
    RanksRise(variant.sources) && forall source <- variant.sources :: source.priority < bound
  }

  lemma RowKeepsRising(ids: Ids, p: Progress, next: Ranked)
    requires PlacesExist(p) && SourcesRise(p.contents, next.priority)
    ensures SourcesRise(AddRow(ids, p, next).contents, next.priority + 1)
  {
    FoundKeeps(ids, p, next.row);
    var found := Found(ids, p, next.row);
    assert SourcesRise(found.contents, next.priority);
    var c := IndexIn(found.identities, next.row.identity);
    hide Found, PlacesExist, IndexIn, VariantRises;
    FiledRises(ids, found, c, next);
    hide Filed;
  }

  lemma FiledRises(ids: Ids, p: Progress, c: nat, next: Ranked)
    requires PlacesExist(p) && c < |p.contents| && SourcesRise(p.contents, next.priority)
    ensures |Filed(ids, p, c, next).contents| == |p.contents|
    ensures SourcesRise(Filed(ids, p, c, next).contents, next.priority + 1)
  {
    var filed, at := Filed(ids, p, c, next), (p.contents[c].id, next.row.key);
    StartRises(ids, p.contents[c].id, next);
    assert at in p.places ==> Houses(p.contents, at, p.places[at]);
    hide Extend, Start, VariantRises;
    forall k, v | 0 <= k < |filed.contents| && 0 <= v < |filed.contents[k].variants|
      ensures VariantRises(filed.contents[k].variants[v], next.priority + 1)
    {
      if v < |p.contents[k].variants| {
        assert VariantRises(p.contents[k].variants[v], next.priority);
        ExtendRises(ids, p.contents[k].variants[v], next);
      }
    }
  }

  lemma StartRises(ids: Ids, content: string, next: Ranked)
    ensures VariantRises(Start(ids, content, next), next.priority + 1)
  {
  }

  lemma ExtendRises(ids: Ids, variant: Variant, next: Ranked)
    requires VariantRises(variant, next.priority)
    ensures VariantRises(variant, next.priority + 1)
    ensures VariantRises(Extend(ids, variant, next), next.priority + 1)
  {
    var sources, added := variant.sources, SourceOf(ids, next);
    if !HasSource(sources, added.id) {
      assert forall source <- sources :: source.id != added.id;
    }
  }

  // ----- in which order, and under which identifiers -----

  /** The keys that a title's rows were the first to use with its identifier, in the order of that use. */
  ghost function OwnKeys(ids: Ids, rows: seq<Row>, identity: Identity): seq<VariantKey> {
    if rows == [] then []
    else
      var front, last := rows[..|rows| - 1], rows[|rows| - 1];
      OwnKeys(ids, front, identity) + (if StartsKey(ids, front, identity, last) then [last.key] else [])
  }

  ghost predicate StartsKey(ids: Ids, rows: seq<Row>, identity: Identity, row: Row) {
    row.identity == identity && Owner(ids, rows, (ids.content(identity), row.key)).None?
  }

  lemma OwnKeysAppend(ids: Ids, rows: seq<Row>, row: Row, identity: Identity)
    ensures OwnKeys(ids, rows + [row], identity) ==
            OwnKeys(ids, rows, identity) + (if StartsKey(ids, rows, identity, row) then [row.key] else [])
  {
    assert (rows + [row])[..|rows|] == rows;
  }

  lemma {:induction false} NoRowsNoKeys(ids: Ids, rows: seq<Row>, identity: Identity)
    requires identity !in IdentitiesOf(rows)
    ensures OwnKeys(ids, rows, identity) == []
  {
    if rows != [] {
      NoRowsNoKeys(ids, rows[..|rows| - 1], identity);
    }
  }

  /** The variants have these keys in this order, and the identifiers that go with them. */
  ghost predicate VariantsAre(ids: Ids, content: string, keys: seq<VariantKey>, variants: seq<Variant>) {
    && |variants| == |keys|
    && forall v :: 0 <= v < |keys| ==> variants[v].key == keys[v] && variants[v].id == ids.variant(content, keys[v])
  }

  /** Every title has its own identifier and lists the variants of its own keys. */
  ghost predicate ListsOwnKeys(ids: Ids, rows: seq<Row>, identities: seq<Identity>, contents: seq<Content>) {
    && |contents| == |identities|
    && forall c :: 0 <= c < |contents| ==>
         && contents[c].id == ids.content(identities[c])
         && VariantsAre(ids, contents[c].id, OwnKeys(ids, rows, identities[c]), contents[c].variants)
  }

  lemma FoundLists(ids: Ids, rows: seq<Row>, p: Progress, row: Row)
    requires |p.identities| == |p.contents| && p.identities == Firsts(IdentitiesOf(rows))
    requires ListsOwnKeys(ids, rows, p.identities, p.contents)
    ensures var found := Found(ids, p, row); ListsOwnKeys(ids, rows, found.identities, found.contents)
  {
    FirstsMean(IdentitiesOf(rows));
    hide Firsts, IdentitiesOf, OwnKeys;
    if row.identity !in p.identities {
      NoRowsNoKeys(ids, rows, row.identity);
    }
  }

  lemma ExtendedLists(ids: Ids, p: Progress, c: nat, next: Ranked)
    requires PlacesExist(p) && c < |p.contents| && (p.contents[c].id, next.row.key) in p.places
    ensures |Filed(ids, p, c, next).contents| == |p.contents|
    ensures forall k, keys :: 0 <= k < |p.contents| && VariantsAre(ids, p.contents[k].id, keys, p.contents[k].variants) ==>
              var filed := Filed(ids, p, c, next).contents[k];
              filed.id == p.contents[k].id && VariantsAre(ids, filed.id, keys, filed.variants)
  {
    var (a, b) := p.places[(p.contents[c].id, next.row.key)];
    var variant := Extend(ids, p.contents[a].variants[b], next);
    assert variant.key == p.contents[a].variants[b].key && variant.id == p.contents[a].variants[b].id;
    var contents := p.contents[a := p.contents[a].(variants := p.contents[a].variants[b := variant])];
    assert Filed(ids, p, c, next) == p.(contents := contents);
    hide PlacesExist, Filed, Extend;
  }

  lemma StartedLists(ids: Ids, p: Progress, c: nat, next: Ranked, keys: seq<VariantKey>)
    requires PlacesExist(p) && c < |p.contents| && (p.contents[c].id, next.row.key) !in p.places
    requires VariantsAre(ids, p.contents[c].id, keys, p.contents[c].variants)
    ensures var filed := Filed(ids, p, c, next).contents;
            && |filed| == |p.contents| && filed[c].id == p.contents[c].id
            && VariantsAre(ids, filed[c].id, keys + [next.row.key], filed[c].variants)
            && forall k :: 0 <= k < |p.contents| && k != c ==> filed[k] == p.contents[k]
  {
    hide PlacesExist;
  }

  lemma FiledLists(ids: Ids, rows: seq<Row>, p: Progress, c: nat, next: Ranked)
    requires PlacesExist(p) && Distinct(p.identities) && c < |p.contents|
    requires p.identities[c] == next.row.identity && ListsOwnKeys(ids, rows, p.identities, p.contents)
    requires (p.contents[c].id, next.row.key) in p.places <==> Owner(ids, rows, (p.contents[c].id, next.row.key)).Some?
    ensures ListsOwnKeys(ids, rows + [next.row], p.identities, Filed(ids, p, c, next).contents)
  {
    hide Filed, PlacesExist, OwnKeys, Owner, VariantsAre;
    var filed, at := Filed(ids, p, c, next).contents, (p.contents[c].id, next.row.key);
    if at in p.places {
      ExtendedLists(ids, p, c, next);
    } else {
      StartedLists(ids, p, c, next, OwnKeys(ids, rows, p.identities[c]));
    }
    forall k | 0 <= k < |p.contents|
      ensures filed[k].id == ids.content(p.identities[k])
      ensures VariantsAre(ids, filed[k].id, OwnKeys(ids, rows + [next.row], p.identities[k]), filed[k].variants)
    {
      OwnKeysAppend(ids, rows, next.row, p.identities[k]);
      assert OwnKeys(ids, rows, p.identities[k]) + [] == OwnKeys(ids, rows, p.identities[k]);
      assert VariantsAre(ids, p.contents[k].id, OwnKeys(ids, rows, p.identities[k]), p.contents[k].variants);
    }
  }

  lemma RowKeepsLists(ids: Ids, rows: seq<Row>, p: Progress, next: Ranked)
    requires Consistent(ids, rows, p) && ListsOwnKeys(ids, rows, p.identities, p.contents)
    ensures var after := AddRow(ids, p, next); ListsOwnKeys(ids, rows + [next.row], after.identities, after.contents)
  {
    FoundIsConsistent(ids, rows, p, next.row);
    FoundLists(ids, rows, p, next.row);
    FirstsMean(IdentitiesOf(rows + [next.row]));
    hide Owner, VariantsFiled, Firsts, IdentitiesOf, Found, Filed, IndexIn, PlacesExist, ListsOwnKeys, Distinct;
    var found := Found(ids, p, next.row);
    var c := IndexIn(found.identities, next.row.identity);
    FiledLists(ids, rows, found, c, next);
    LabelledLists(ids, rows + [next.row], Filed(ids, found, c, next), c, next.row);
  }

  lemma LabelledLists(ids: Ids, rows: seq<Row>, p: Progress, c: nat, row: Row)
    requires c < |p.contents| && ListsOwnKeys(ids, rows, p.identities, p.contents)
    ensures ListsOwnKeys(ids, rows, p.identities, Labelled(p, c, row).contents)
  {
    hide OwnKeys, VariantsAre;
  }
}
