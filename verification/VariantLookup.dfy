/** Finding aggregated variants again by their identifiers, and trying their sources. */
module VariantLookup {
  import opened Collections
  import opened Wrappers
  import opened Trimming
  import opened StableSorting
  import opened Grouping
  import opened AggregationPass
  import opened Aggregation

  // ----- identifiers that do clash -----

  /** Identifiers are made from the trimmed parts in lower case, whatever is then done with them. */
  function Folded(parts: seq<string>): seq<string> {
    if parts == [] then [] else Folded(parts[..|parts| - 1]) + [Lower(Trim(parts[|parts| - 1]))]
  }

  /** For instance, of two clashing titles with one row each the second is left without a variant. */
  lemma SecondTitleIsEmpty(ids: Ids, a: Row, b: Row, contents: seq<Content>)
    requires Clashes(ids, a, b) && a.identity != b.identity
    requires KeepsOwnKeys(ids, [a, b], contents)
    requires forall c :: 0 <= c < |contents| ==> contents[c].id == ids.content(Firsts(IdentitiesOf([a, b]))[c])
    ensures !NoClash(ids, [a, b])
    ensures |contents| == 2 && contents[1].variants == []
  {
    TwoTitles(ids, a, b);
    hide Owner, Firsts, IdentitiesOf, KeepsOwnKeys;
    assert a in [a, b] && b in [a, b];
    assert |contents| == |Firsts(IdentitiesOf([a, b]))| by { KeptKeysCount(ids, [a, b], contents); }
    ClashesLeaveATitleEmpty(ids, [a, b], contents, 1);
  }

  lemma KeptKeysCount(ids: Ids, rows: seq<Row>, contents: seq<Content>)
    requires KeepsOwnKeys(ids, rows, contents)
    ensures |contents| == |Firsts(IdentitiesOf(rows))|
  {
  }

  lemma TwoTitles(ids: Ids, a: Row, b: Row)
    requires a.identity != b.identity
    ensures Firsts(IdentitiesOf([a, b])) == [a.identity, b.identity]
    ensures Owner(ids, [a, b], (ids.content(a.identity), a.key)) == Some(a.identity)
  {
    var at := (ids.content(a.identity), a.key);
    assert [a, b] == [a] + [b] && [a] == [] + [a];
    IdentityAppends([], a, a.identity);
    IdentityAppends([a], b, b.identity);
    assert IdentitiesOf([]) == [] && Firsts<Identity>([]) == [] && Owner(ids, [], at).None?;
    OwnerAppends(ids, [], a, at);
    OwnerAppends(ids, [a], b, at);
    hide Owner, IdentitiesOf, OfIdentity;
    assert IdentitiesOf([a]) == [a.identity];
    FirstsAppend([], a.identity);
    FirstsAppend([a.identity], b.identity);
    hide Firsts;
    assert [] + [a.identity] == [a.identity];
  }

  /** Two rows of one film whose media type is spelled with and without a capital clash. */
  lemma CapitalsClash(ids: Ids, digest: seq<string> -> string, a: Row, b: Row)
    requires forall identity :: ids.content(identity) == digest(Folded(identity))
    requires a.identity == ["fallback", "heat", "1995", "movie"] && b.identity == ["fallback", "heat", "1995", "Movie"]
    requires a.key == b.key
    ensures Clashes(ids, a, b) && a.identity != b.identity
  {
    SpellingsFold();
    hide Folded;
    assert a.identity[3] != b.identity[3];
  }

  lemma SpellingsFold()
    ensures Folded(["fallback", "heat", "1995", "movie"]) == Folded(["fallback", "heat", "1995", "Movie"])
  {
    var a, b := ["fallback", "heat", "1995", "movie"], ["fallback", "heat", "1995", "Movie"];
    assert a[..3] == b[..3];
    TrimWord("movie");
    TrimWord("Movie");
    assert Lower("movie") == Lower("Movie");
  }

  lemma TrimWord(word: string)
    requires word != [] && !IsSpace(word[0]) && !IsSpace(word[|word| - 1])
    ensures Trim(word) == word
  {
  }

  // ----- finding a variant again -----

  ghost predicate FirstContent(contents: seq<Content>, id: string, c: int) {
    0 <= c < |contents| && contents[c].id == id && forall k :: 0 <= k < c ==> contents[k].id != id
  }

  ghost predicate FirstVariant(variants: seq<Variant>, id: string, v: int) {
    0 <= v < |variants| && variants[v].id == id && forall k :: 0 <= k < v ==> variants[k].id != id
  }

  /** The first variant with its identifier, in the first title with its own. */
  ghost predicate IsFound(contents: seq<Content>, contentId: string, variantId: string, found: Option<Variant>) {
    && (forall c, v :: FirstContent(contents, contentId, c) && FirstVariant(contents[c].variants, variantId, v) ==>
          found == Some(contents[c].variants[v]))
    && (found.Some? ==> exists c, v ::
          FirstContent(contents, contentId, c) && FirstVariant(contents[c].variants, variantId, v))
  }

  method FindVariant(contents: seq<Content>, contentId: string, variantId: string) returns (found: Option<Variant>)
    ensures IsFound(contents, contentId, variantId, found)
  {
    for c := 0 to |contents|
      invariant forall k :: 0 <= k < c ==> contents[k].id != contentId
    {
      if contents[c].id == contentId {
        assert FirstContent(contents, contentId, c);
        assert forall k :: FirstContent(contents, contentId, k) ==> k == c;
        var variants := contents[c].variants;
        for v := 0 to |variants|
          invariant forall k :: 0 <= k < v ==> variants[k].id != variantId
        {
          if variants[v].id == variantId {
            assert FirstVariant(variants, variantId, v);
            assert forall k :: FirstVariant(variants, variantId, k) ==> k == v;
            return Some(variants[v]);
          }
        }
        return None;
      }
    }
    return None;
  }

  /** No earlier title has the title's identifier. */
  ghost predicate UnsharedTitle(ids: Ids, rows: seq<Row>, c: nat)
    requires c < |Firsts(IdentitiesOf(rows))|
  {
    var identities := Firsts(IdentitiesOf(rows));
    forall d :: 0 <= d < c ==> ids.content(identities[d]) != ids.content(identities[c])
  }

  ghost function KeysOfTitle(rows: seq<Row>, identity: Identity): seq<VariantKey> {
    Firsts(KeysOf(OfIdentity(rows, identity)))
  }

  /** No earlier key of the title makes the key's variant identifier. */
  ghost predicate UnsharedKey(ids: Ids, rows: seq<Row>, identity: Identity, v: nat)
    requires v < |KeysOfTitle(rows, identity)|
  {
    var keys, content := KeysOfTitle(rows, identity), ids.content(identity);
    forall w :: 0 <= w < v ==> ids.variant(content, keys[w]) != ids.variant(content, keys[v])
  }

  /** In the grouping, which is what aggregation gives without a clash, a variant is found again by the identifiers
      it is listed with exactly when no earlier title of the rows and no earlier key of its title make the same. */
  lemma ListedVariantsAreFound(
    ids: Ids, rows: seq<Row>, contents: seq<Content>, c: nat, v: nat, found: Option<Variant>)
    requires GroupsByIdentity(ids, rows, contents) && c < |contents| && v < |contents[c].variants|
    requires IsFound(contents, contents[c].id, contents[c].variants[v].id, found)
    ensures c < |Firsts(IdentitiesOf(rows))| && v < |KeysOfTitle(rows, Firsts(IdentitiesOf(rows))[c])|
    ensures found == Some(contents[c].variants[v]) <==>
              UnsharedTitle(ids, rows, c) && UnsharedKey(ids, rows, Firsts(IdentitiesOf(rows))[c], v)
  {
    ListedVariant(ids, rows, contents, c, v);
    ListedAt(ids, rows, contents, c, v);
    var variant := contents[c].variants[v];
    if found == Some(variant) {
      var d, w :| FirstContent(contents, contents[c].id, d) && FirstVariant(contents[d].variants, variant.id, w);
      assert found == Some(contents[d].variants[w]);
      FirstsMean(IdentitiesOf(rows));
      FirstsMean(KeysOf(OfIdentity(rows, Firsts(IdentitiesOf(rows))[c])));
      ListedVariant(ids, rows, contents, d, w);
      hide GroupsByIdentity, KeysOf, OfIdentity, IdentitiesOf, Firsts, IsFound;
      assert d == c && w == v;
    }
  }

  lemma ListedAt(ids: Ids, rows: seq<Row>, contents: seq<Content>, c: nat, v: nat)
    requires GroupsByIdentity(ids, rows, contents) && c < |contents| && v < |contents[c].variants|
    ensures c < |Firsts(IdentitiesOf(rows))| && v < |KeysOfTitle(rows, Firsts(IdentitiesOf(rows))[c])|
    ensures FirstContent(contents, contents[c].id, c) <==> UnsharedTitle(ids, rows, c)
    ensures FirstVariant(contents[c].variants, contents[c].variants[v].id, v) <==>
              UnsharedKey(ids, rows, Firsts(IdentitiesOf(rows))[c], v)
  {
    var identities := Firsts(IdentitiesOf(rows));
    forall d | 0 <= d < |contents|
      ensures contents[d].id == ids.content(identities[d])
    {
      assert Collects(ids, identities[d], OfIdentity(rows, identities[d]), contents[d]);
    }
    ListedVariant(ids, rows, contents, c, v);
    forall w | 0 <= w < |contents[c].variants|
      ensures contents[c].variants[w].id == ids.variant(contents[c].id, KeysOfTitle(rows, identities[c])[w])
    {
      ListedVariant(ids, rows, contents, c, w);
    }
    hide GroupsByIdentity, KeysOf, OfIdentity, IdentitiesOf, Firsts;
  }

  /** Whatever the rows, with a clash or without: a variant that aggregation lists is found again by its identifiers
      exactly when no earlier title of the rows makes the same title identifier and none of the keys its title was the
      first to use before makes the same variant identifier. */
  lemma AggregatedVariantsAreFound(
    ids: Ids, rows: seq<Row>, contents: seq<Content>, c: nat, v: nat, found: Option<Variant>)
    requires KeepsOwnKeys(ids, rows, contents) && ListsOwnKeys(ids, rows, Firsts(IdentitiesOf(rows)), contents)
    requires c < |contents| && v < |contents[c].variants|
    requires IsFound(contents, contents[c].id, contents[c].variants[v].id, found)
    ensures c < |Firsts(IdentitiesOf(rows))| && v < |OwnKeys(ids, rows, Firsts(IdentitiesOf(rows))[c])|
    ensures found == Some(contents[c].variants[v]) <==>
              && UnsharedTitle(ids, rows, c)
              && var identity := Firsts(IdentitiesOf(rows))[c];
              var keys := OwnKeys(ids, rows, identity);
              forall w :: 0 <= w < v ==>
                ids.variant(ids.content(identity), keys[w]) != ids.variant(ids.content(identity), keys[v])
  {
    FirstsMean(IdentitiesOf(rows));
    hide Firsts, IdentitiesOf, OwnKeys, Owner;
    var variant := contents[c].variants[v];
    if found == Some(variant) {
      var d, w :| FirstContent(contents, contents[c].id, d) && FirstVariant(contents[d].variants, variant.id, w);
      assert found == Some(contents[d].variants[w]);
      OneHolder(ids, rows, contents, c, v, d, w);
    }
  }

  /** No two places list the same variant under one title identifier. */
  lemma OneHolder(ids: Ids, rows: seq<Row>, contents: seq<Content>, c: nat, v: nat, d: nat, w: nat)
    requires KeepsOwnKeys(ids, rows, contents) && Distinct(Firsts(IdentitiesOf(rows)))
    requires c < |contents| && v < |contents[c].variants| && d < |contents| && w < |contents[d].variants|
    requires contents[c].id == contents[d].id && contents[c].variants[v] == contents[d].variants[w]
    ensures c == d && v == w
  {
    hide Firsts, IdentitiesOf, Owner;
    assert contents[c].variants[v] in contents[c].variants && contents[d].variants[w] in contents[d].variants;
    assert HasVariant(contents[c], contents[c].variants[v].key);
    assert HasVariant(contents[d], contents[c].variants[v].key);
  }

  // ----- variants that are listed and not found -----

  function ZeroIsMissing(n: Option<int>): Option<int> {
    if n == Some(0) then None else n
  }

  function Shown(key: VariantKey): VariantKey {
    key.(season := ZeroIsMissing(key.season), episode := ZeroIsMissing(key.episode))
  }

  /** Identifiers are made from texts in which a zero number is written like a missing one. */
  ghost predicate BlindToZero(ids: Ids) {
    forall content, a: VariantKey, b: VariantKey :: Shown(a) == Shown(b) ==> ids.variant(content, a) == ids.variant(content, b)
  }

  /** A title with a release of season zero and one without a season lists both, but looking up the second finds
      the first. */
  lemma SeasonZeroIsShadowed(ids: Ids, a: Row, b: Row, contents: seq<Content>, found: Option<Variant>)
    requires BlindToZero(ids)
    requires a.identity == b.identity && a.key.season == None && b.key == a.key.(season := Some(0))
    requires GroupsByIdentity(ids, [a, b], contents)
    requires |contents| == 1 && |contents[0].variants| == 2 ==>
               IsFound(contents, contents[0].id, contents[0].variants[1].id, found)
    ensures NoClash(ids, [a, b])
    ensures |contents| == 1 && |contents[0].variants| == 2
    ensures found == Some(contents[0].variants[0]) && contents[0].variants[0] != contents[0].variants[1]
  {
    hide GroupsByIdentity, KeysOf, OfIdentity, IdentitiesOf, Firsts, NoClash;
    TwoRowsDoNotClash(ids, a, b);
    OneTitleTwoKeys(ids, a, b, contents);
    ListedVariant(ids, [a, b], contents, 0, 0);
    ListedVariant(ids, [a, b], contents, 0, 1);
    SameIdentifier(ids, contents[0].id, a.key, b.key);
    hide BlindToZero;
    assert FirstContent(contents, contents[0].id, 0);
    assert FirstVariant(contents[0].variants, contents[0].variants[1].id, 0);
  }

  lemma SameIdentifier(ids: Ids, content: string, a: VariantKey, b: VariantKey)
    requires BlindToZero(ids) && a.season == None && b == a.(season := Some(0))
    ensures ids.variant(content, a) == ids.variant(content, b)
  {
    assert Shown(a) == Shown(b);
  }

  lemma TwoRowsDoNotClash(ids: Ids, a: Row, b: Row)
    requires a.identity == b.identity || a.key != b.key
    ensures NoClash(ids, [a, b])
  {
  }

  lemma TwoRowsOfOneTitle(a: Row, b: Row)
    requires a.identity == b.identity
    ensures Firsts(IdentitiesOf([a, b])) == [a.identity]
    ensures OfIdentity([a, b], a.identity) == [Ranked(a, 0)] + [Ranked(b, 1)]
  {
    var identity := a.identity;
    assert [a, b] == [a] + [b] && [a] == [] + [a];
    IdentityAppends([], a, identity);
    IdentityAppends([a], b, identity);
    assert IdentitiesOf([]) == [] && OfIdentity([], identity) == [] && Firsts<Identity>([]) == [];
    hide IdentitiesOf, OfIdentity;
    assert [] + [identity] == [identity];
    FirstsAppend([], identity);
    FirstsAppend([identity], identity);
  }

  lemma SingleKey(only: Ranked)
    ensures KeysOf([only]) == [only.row.key] && Firsts([only.row.key]) == [only.row.key]
  {
    assert [only][..0] == [] && [only.row.key][..0] == [];
    assert KeysOf([]) == [] && Firsts<VariantKey>([]) == [];
  }

  lemma TwoKeys(first: Ranked, second: Ranked)
    requires first.row.key != second.row.key
    ensures Firsts(KeysOf([first] + [second])) == [first.row.key, second.row.key]
  {
    hide KeysOf, Firsts, OfKey, LanguagesOf;
    SingleKey(first);
    KeyAppends([first], second, second.row.key);
    FirstsAppend([first.row.key], second.row.key);
  }

  lemma OneTitleTwoKeys(ids: Ids, a: Row, b: Row, contents: seq<Content>)
    requires a.identity == b.identity && a.key != b.key && GroupsByIdentity(ids, [a, b], contents)
    ensures Firsts(IdentitiesOf([a, b])) == [a.identity]
    ensures Firsts(KeysOf(OfIdentity([a, b], a.identity))) == [a.key, b.key]
    ensures |contents| == 1 && |contents[0].variants| == 2
  {
    hide Firsts, IdentitiesOf, OfIdentity, KeysOf;
    TwoRowsOfOneTitle(a, b);
    TwoKeys(Ranked(a, 0), Ranked(b, 1));
    assert Collects(ids, a.identity, OfIdentity([a, b], a.identity), contents[0]);
    VariantKeys(ids, contents[0].id, OfIdentity([a, b], a.identity), contents[0].variants);
  }

  /** Of two titles with one identifier and different releases both list theirs, but looking up the second
      title's release finds nothing. */
  lemma SecondTitleIsNotSearched(ids: Ids, a: Row, b: Row, contents: seq<Content>, found: Option<Variant>)
    requires a.identity != b.identity && ids.content(a.identity) == ids.content(b.identity) && a.key != b.key
    requires ids.variant(ids.content(a.identity), a.key) != ids.variant(ids.content(b.identity), b.key)
    requires GroupsByIdentity(ids, [a, b], contents)
    requires |contents| == 2 && |contents[1].variants| == 1 ==>
               IsFound(contents, contents[1].id, contents[1].variants[0].id, found)
    ensures NoClash(ids, [a, b])
    ensures |contents| == 2 && |contents[1].variants| == 1
    ensures found == None
  {
    hide GroupsByIdentity, KeysOf, OfIdentity, IdentitiesOf, Firsts, Owner, NoClash;
    TwoTitles(ids, a, b);
    OnlyRowOfTitle(ids, a, b, contents);
    ListedVariant(ids, [a, b], contents, 0, 0);
    ListedVariant(ids, [a, b], contents, 1, 0);
    NotInFirst(contents, found);
  }

  lemma NotInFirst(contents: seq<Content>, found: Option<Variant>)
    requires |contents| == 2 && |contents[0].variants| == 1 && |contents[1].variants| == 1
    requires contents[0].id == contents[1].id && contents[0].variants[0].id != contents[1].variants[0].id
    requires IsFound(contents, contents[1].id, contents[1].variants[0].id, found)
    ensures found == None
  {
  }

  lemma OnlyRowOfTitle(ids: Ids, a: Row, b: Row, contents: seq<Content>)
    requires a.identity != b.identity && a.key != b.key && GroupsByIdentity(ids, [a, b], contents)
    ensures NoClash(ids, [a, b])
    ensures |contents| == 2 && |contents[0].variants| == 1 && |contents[1].variants| == 1
    ensures Firsts(KeysOf(OfIdentity([a, b], a.identity))) == [a.key]
    ensures Firsts(KeysOf(OfIdentity([a, b], b.identity))) == [b.key]
  {
    TwoTitles(ids, a, b);
    TwoRowsDoNotClash(ids, a, b);
    OneKey(a, b, a.identity, Ranked(a, 0));
    OneKey(a, b, b.identity, Ranked(b, 1));
    hide Firsts, IdentitiesOf, OfIdentity, KeysOf, Owner, NoClash;
    assert Collects(ids, a.identity, OfIdentity([a, b], a.identity), contents[0]);
    assert Collects(ids, b.identity, OfIdentity([a, b], b.identity), contents[1]);
    VariantKeys(ids, contents[0].id, OfIdentity([a, b], a.identity), contents[0].variants);
    VariantKeys(ids, contents[1].id, OfIdentity([a, b], b.identity), contents[1].variants);
  }

  lemma OneKey(a: Row, b: Row, identity: Identity, only: Ranked)
    requires a.identity != b.identity
    requires (identity == a.identity && only == Ranked(a, 0)) || (identity == b.identity && only == Ranked(b, 1))
    ensures Firsts(KeysOf(OfIdentity([a, b], identity))) == [only.row.key]
  {
    assert [a, b] == [a] + [b] && [a] == [] + [a];
    IdentityAppends([], a, identity);
    IdentityAppends([a], b, identity);
    assert OfIdentity([], identity) == [];
    assert OfIdentity([a, b], identity) == [only];
    hide IdentitiesOf, OfIdentity, KeysOf, Firsts;
    SingleKey(only);
  }

  // ----- trying the sources of a variant -----

  datatype Verification = Unverified | Verified | Failed

  /** Tries the sources in order of priority until one is verified. */
  method Failover(sources: seq<Source>, verify: Source -> bool)
    returns (ordered: seq<Source>, states: seq<Verification>, winner: Option<nat>)
    ensures multiset(ordered) == multiset(sources) && Sorted(ordered, (source: Source) => source.priority)
    ensures RanksRise(sources) ==> ordered == sources
    ensures |states| == |ordered|
    ensures winner.None? ==> forall k :: 0 <= k < |ordered| ==> !verify(ordered[k]) && states[k].Failed?
    ensures winner.Some? ==>
              && winner.value < |ordered| && verify(ordered[winner.value]) && states[winner.value].Verified?
              && (forall k :: 0 <= k < winner.value ==> !verify(ordered[k]) && states[k].Failed?)
              && (forall k :: winner.value < k < |ordered| ==> states[k].Unverified?)
  {
    var priority := (source: Source) => source.priority;
    ordered := StableSort(sources, priority);
    StableSortSorts(sources, priority);
    if RanksRise(sources) {
      StableSortKeepsSorted(sources, priority);
    }
    states := seq(|ordered|, _ => Unverified);
    for i := 0 to |ordered|
      invariant |states| == |ordered|
      invariant forall k :: 0 <= k < i ==> !verify(ordered[k]) && states[k].Failed?
      invariant forall k :: i <= k < |ordered| ==> states[k].Unverified?
    {
      if verify(ordered[i]) {
        states := states[i := Verified];
        return ordered, states, Some(i);
      }
      states := states[i := Failed];
    }
    winner := None;
  }
}
