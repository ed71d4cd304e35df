/** Search rows grouped into titles, their release variants and the sources of each: the reference meaning of
    aggregation. Identity, variant key and labels are read off a row elsewhere. */
module Grouping {
  import opened Collections
  import opened Wrappers

  type Identity = seq<string>

  datatype VariantKey = VariantKey(
    language: string, audio: string, quality: string, release: string, pack: string, season: Option<int>,
    episode: Option<int>)

  datatype Heading = Heading(tmdbId: string, title: string, year: string, mediaType: string, poster: string)

  datatype Row = Row(
    identity: Identity, heading: Heading, key: VariantKey, size: string, qualities: seq<string>,
    languages: seq<string>, adapter: string, display: string, url: string)

  /** A row and its place in the input, which is its priority. */
  datatype Ranked = Ranked(row: Row, priority: nat)

  datatype Source = Source(id: string, adapter: string, display: string, candidate: Row, priority: nat)

  datatype Variant = Variant(id: string, key: VariantKey, size: string, qualities: seq<string>, sources: seq<Source>)

  datatype Content = Content(id: string, heading: Heading, languages: seq<string>, variants: seq<Variant>, totalSources: nat)

  /** How identifiers are made. */
  datatype Ids = Ids(
    content: Identity -> string, variant: (string, VariantKey) -> string, source: (string, string) -> string)

  // ----- first appearances -----

  /** The different values of a list, each where it first appears. */
  function Firsts<T(==)>(values: seq<T>): seq<T> {
    if values == [] then []
    else
      var front, last := Firsts(values[..|values| - 1]), values[|values| - 1];
      if last in front then front else front + [last]
  }

  lemma {:induction false} FirstsMean<T>(values: seq<T>)
    ensures Distinct(Firsts(values)) && forall x :: x in Firsts(values) <==> x in values
  {
    if values != [] {
      FirstsMean(values[..|values| - 1]);
      assert values == values[..|values| - 1] + [values[|values| - 1]];
    }
  }

  lemma FirstsAppend<T>(values: seq<T>, last: T)
    ensures Firsts(values + [last]) == if last in values then Firsts(values) else Firsts(values) + [last]
  {
    assert (values + [last])[..|values|] == values;
    FirstsMean(values);
  }

  /** A longer list has the same first appearances in the same order, and then further ones. */
  lemma {:induction false} FirstsExtend<T>(values: seq<T>, more: seq<T>)
    ensures Firsts(values) <= Firsts(values + more)
  {
    if more == [] {
      assert values + more == values;
    } else {
      FirstsExtend(values, more[..|more| - 1]);
      assert values + more == (values + more[..|more| - 1]) + [more[|more| - 1]];
      FirstsAppend(values + more[..|more| - 1], more[|more| - 1]);
    }
  }

  function IndexIn<T(==)>(values: seq<T>, x: T): (i: nat)
    requires x in values
    ensures i < |values| && values[i] == x
  {
    if values[0] == x then 0 else 1 + IndexIn(values[1..], x)
  }

  // ----- one variant and one title -----

  /** The list with those of the others that it lacks. */
  function AddMissing(have: seq<string>, more: seq<string>): seq<string> {
    if more == [] then have
    else
      var front, last := AddMissing(have, more[..|more| - 1]), more[|more| - 1];
      if last == "" || last in front then front else front + [last]
  }

  /** Nowhere does y come without x before it. */
  ghost predicate SeenFirst(values: seq<string>, x: string, y: string) {
    forall q :: 0 <= q < |values| && values[q] == y ==> x in values[..q]
  }

  /** The first list is kept and followed by exactly the non-empty values of the second that it lacks, each once and
      in the order in which they first appear there. */
  ghost predicate Completes(have: seq<string>, more: seq<string>, result: seq<string>) {
    && have <= result
    && (forall x <- more :: x != "" ==> x in result)
    && var added := result[|have|..];
       && Distinct(added)
       && (forall x <- added :: x != "" && x in more && x !in have)
       && (forall i, j :: 0 <= i < j < |added| ==> SeenFirst(more, added[i], added[j]))
  }

  lemma SeenFirstAppends(values: seq<string>, last: string, x: string, y: string)
    requires x in values && (y in values ==> SeenFirst(values, x, y))
    ensures SeenFirst(values + [last], x, y)
  {
    var longer := values + [last];
    forall q | 0 <= q < |longer| && longer[q] == y
      ensures x in longer[..q]
    {
      if q < |values| {
        assert longer[..q] == values[..q] && values[q] == y;
      } else {
        assert longer[..q] == values;
      }
    }
  }

  lemma SkippedCompletes(have: seq<string>, more: seq<string>, last: string, result: seq<string>)
    requires Completes(have, more, result) && (last == "" || last in result)
    ensures Completes(have, more + [last], result)
  {
    var added := result[|have|..];
    forall i, j | 0 <= i < j < |added|
      ensures SeenFirst(more + [last], added[i], added[j])
    {
      SeenFirstAppends(more, last, added[i], added[j]);
    }
  }

  lemma AddedCompletes(have: seq<string>, more: seq<string>, last: string, result: seq<string>)
    requires Completes(have, more, result) && last != "" && last !in result
    ensures Completes(have, more + [last], result + [last])
  {
    var added := result[|have|..];
    assert (result + [last])[|have|..] == added + [last];
    assert last !in added && last !in have && last !in more;
    forall i, j | 0 <= i < j < |added + [last]|
      ensures SeenFirst(more + [last], (added + [last])[i], (added + [last])[j])
    {
      SeenFirstAppends(more, last, added[i], (added + [last])[j]);
    }
    hide SeenFirst;
    assert forall x <- added :: x in more + [last];
  }

  /** Adding what is missing completes the list. */
  lemma {:induction false} MissingCompletes(have: seq<string>, more: seq<string>)
    ensures Completes(have, more, AddMissing(have, more))
  {
    if more != [] {
      var front, last := more[..|more| - 1], more[|more| - 1];
      assert more == front + [last];
      MissingCompletes(have, front);
      hide Completes;
      if last == "" || last in AddMissing(have, front) {
        SkippedCompletes(have, front, last, AddMissing(have, front));
      } else {
        AddedCompletes(have, front, last, AddMissing(have, front));
      }
    }
  }

  /** Adding the parts of a list one after the other adds the list. */
  lemma {:induction false} MissingInParts(have: seq<string>, first: seq<string>, second: seq<string>)
    ensures AddMissing(have, first + second) == AddMissing(AddMissing(have, first), second)
  {
    if second == [] {
      assert first + second == first;
    } else {
      assert (first + second)[..|first + second| - 1] == first + second[..|second| - 1];
      MissingInParts(have, first, second[..|second| - 1]);
    }
  }

  function SourceOf(ids: Ids, ranked: Ranked): Source {
    var row := ranked.row;
    Source(ids.source(row.adapter, row.url), row.adapter, row.display, row, ranked.priority)
  }

  predicate HasSource(sources: seq<Source>, id: string) {
    exists source <- sources :: source.id == id
  }

  function AddSource(sources: seq<Source>, source: Source): seq<Source> {
    if HasSource(sources, source.id) then sources else sources + [source]
  }

  function Start(ids: Ids, content: string, first: Ranked): Variant {
    Variant(ids.variant(content, first.row.key), first.row.key, first.row.size, first.row.qualities, [SourceOf(ids, first)])
  }

  function Extend(ids: Ids, variant: Variant, next: Ranked): Variant {
    variant.(qualities := AddMissing(variant.qualities, next.row.qualities),
             sources := AddSource(variant.sources, SourceOf(ids, next)))
  }

  function VariantOf(ids: Ids, content: string, group: seq<Ranked>): Variant
    requires group != []
  {
    if |group| == 1 then Start(ids, content, group[0])
    else Extend(ids, VariantOf(ids, content, group[..|group| - 1]), group[|group| - 1])
  }

  function KeysOf(group: seq<Ranked>): seq<VariantKey> {
    if group == [] then [] else KeysOf(group[..|group| - 1]) + [group[|group| - 1].row.key]
  }

  function OfKey(group: seq<Ranked>, key: VariantKey): seq<Ranked> {
    if group == [] then []
    else OfKey(group[..|group| - 1], key) + (if group[|group| - 1].row.key == key then [group[|group| - 1]] else [])
  }

  lemma {:induction false} OfKeyMeans(group: seq<Ranked>, key: VariantKey)
    ensures OfKey(group, key) != [] <==> key in KeysOf(group)
  {
    if group != [] {
      OfKeyMeans(group[..|group| - 1], key);
    }
  }

  /** One variant for each variant key of the rows, in order of first appearance. */
  ghost predicate GroupsByKey(ids: Ids, content: string, group: seq<Ranked>, variants: seq<Variant>) {
    var keys := Firsts(KeysOf(group));
    && |variants| == |keys|
    && forall v :: 0 <= v < |keys| ==>
         OfKey(group, keys[v]) != [] && variants[v] == VariantOf(ids, content, OfKey(group, keys[v]))
  }

  function LanguagesOf(group: seq<Ranked>): seq<string> {
    if group == [] then [] else AddMissing(LanguagesOf(group[..|group| - 1]), group[|group| - 1].row.languages)
  }

  /** A title with everything its rows say. */
  ghost predicate Collects(ids: Ids, identity: Identity, group: seq<Ranked>, content: Content) {
    && group != []
    && content.id == ids.content(identity) && content.heading == group[0].row.heading
    && content.languages == LanguagesOf(group)
    && GroupsByKey(ids, content.id, group, content.variants)
  }

  // ----- all titles -----

  function IdentitiesOf(rows: seq<Row>): seq<Identity> {
    if rows == [] then [] else IdentitiesOf(rows[..|rows| - 1]) + [rows[|rows| - 1].identity]
  }

  function OfIdentity(rows: seq<Row>, identity: Identity): seq<Ranked> {
    if rows == [] then []
    else
      var last := |rows| - 1;
      OfIdentity(rows[..last], identity) + (if rows[last].identity == identity then [Ranked(rows[last], last)] else [])
  }

  /** One title for each identity of the rows, in order of first appearance, whatever the totals say. */
  ghost predicate GroupsByIdentity(ids: Ids, rows: seq<Row>, contents: seq<Content>) {
    var identities := Firsts(IdentitiesOf(rows));
    && |contents| == |identities|
    && forall c :: 0 <= c < |identities| ==> Collects(ids, identities[c], OfIdentity(rows, identities[c]), contents[c])
  }

  // ----- what the rows say -----

  /** All languages of the rows, row by row. */
  ghost function LanguagesSaid(group: seq<Ranked>): seq<string> {
    if group == [] then [] else LanguagesSaid(group[..|group| - 1]) + group[|group| - 1].row.languages
  }

  ghost function QualitiesSaid(group: seq<Ranked>): seq<string> {
    if group == [] then [] else QualitiesSaid(group[..|group| - 1]) + group[|group| - 1].row.qualities
  }

  lemma {:induction false} SaidBySome(group: seq<Ranked>, value: string)
    ensures value in LanguagesSaid(group) <==> exists ranked <- group :: value in ranked.row.languages
    ensures value in QualitiesSaid(group) <==> exists ranked <- group :: value in ranked.row.qualities
  {
    if group != [] {
      var front, last := group[..|group| - 1], group[|group| - 1];
      assert group == front + [last];
      SaidBySome(front, value);
    }
  }

  /** A title's languages are those that its rows say, each once and in order of first appearance. */
  lemma {:induction false} LanguagesAreThoseSaid(group: seq<Ranked>)
    ensures LanguagesOf(group) == AddMissing([], LanguagesSaid(group))
    ensures Completes([], LanguagesSaid(group), LanguagesOf(group))
  {
    MissingCompletes([], LanguagesSaid(group));
    hide Completes;
    if group != [] {
      var front, last := group[..|group| - 1], group[|group| - 1];
      LanguagesAreThoseSaid(front);
      MissingInParts([], LanguagesSaid(front), last.row.languages);
    }
  }

  /** A variant's qualities are its first row's, and then those that its later rows add. */
  lemma {:induction false} QualitiesAreThoseSaid(ids: Ids, content: string, group: seq<Ranked>)
    requires group != []
    ensures var qualities := VariantOf(ids, content, group).qualities;
            && qualities == AddMissing(group[0].row.qualities, QualitiesSaid(group[1..]))
            && Completes(group[0].row.qualities, QualitiesSaid(group[1..]), qualities)
  {
    MissingCompletes(group[0].row.qualities, QualitiesSaid(group[1..]));
    hide Completes;
    if |group| > 1 {
      var front, last := group[..|group| - 1], group[|group| - 1];
      QualitiesAreThoseSaid(ids, content, front);
      assert group[1..][..|group[1..]| - 1] == front[1..];
      MissingInParts(group[0].row.qualities, QualitiesSaid(front[1..]), last.row.qualities);
    }
  }

  // ----- one more row -----

  lemma VariantGrows(ids: Ids, content: string, group: seq<Ranked>, next: Ranked)
    requires group != []
    ensures VariantOf(ids, content, group + [next]) == Extend(ids, VariantOf(ids, content, group), next)
  {
    assert (group + [next])[..|group|] == group;
  }

  lemma KeyAppends(group: seq<Ranked>, next: Ranked, key: VariantKey)
    ensures KeysOf(group + [next]) == KeysOf(group) + [next.row.key]
    ensures OfKey(group + [next], key) == OfKey(group, key) + (if next.row.key == key then [next] else [])
    ensures LanguagesOf(group + [next]) == AddMissing(LanguagesOf(group), next.row.languages)
  {
    assert (group + [next])[..|group|] == group;
  }

  lemma KnownKeyGrows(ids: Ids, content: string, group: seq<Ranked>, next: Ranked, key: VariantKey)
    requires OfKey(group, key) != []
    ensures OfKey(group + [next], key) != []
    ensures VariantOf(ids, content, OfKey(group + [next], key)) ==
            if key == next.row.key then Extend(ids, VariantOf(ids, content, OfKey(group, key)), next)
            else VariantOf(ids, content, OfKey(group, key))
  {
    KeyAppends(group, next, key);
    hide OfKey, VariantOf, Extend;
    if key == next.row.key {
      VariantGrows(ids, content, OfKey(group, key), next);
    } else {
      assert OfKey(group, key) + [] == OfKey(group, key);
    }
  }

  lemma NewKeyStarts(ids: Ids, content: string, group: seq<Ranked>, next: Ranked)
    requires next.row.key !in KeysOf(group)
    ensures OfKey(group + [next], next.row.key) == [next]
    ensures VariantOf(ids, content, [next]) == Start(ids, content, next)
  {
    KeyAppends(group, next, next.row.key);
    OfKeyMeans(group, next.row.key);
  }

  /** The variants with one more row: a known key extends its variant, a new one starts a variant at the end. */
  function Grown(ids: Ids, content: string, keys: seq<VariantKey>, variants: seq<Variant>, next: Ranked): seq<Variant>
    requires |keys| == |variants|
  {
    if next.row.key in keys then
      var v := IndexIn(keys, next.row.key);
      variants[v := Extend(ids, variants[v], next)]
    else variants + [Start(ids, content, next)]
  }

  lemma GrownAt(ids: Ids, content: string, keys: seq<VariantKey>, variants: seq<Variant>, next: Ranked)
    requires |keys| == |variants| && Distinct(keys)
    ensures var grown := Grown(ids, content, keys, variants, next);
            && |grown| == |keys| + (if next.row.key in keys then 0 else 1)
            && (forall v :: 0 <= v < |keys| ==>
                  grown[v] == if keys[v] == next.row.key then Extend(ids, variants[v], next) else variants[v])
            && (next.row.key !in keys ==> grown[|keys|] == Start(ids, content, next))
  {
    hide Extend, Start;
  }

  lemma KeysGrow(group: seq<Ranked>, next: Ranked)
    ensures Distinct(Firsts(KeysOf(group)))
    ensures next.row.key in Firsts(KeysOf(group)) <==> next.row.key in KeysOf(group)
    ensures Firsts(KeysOf(group + [next])) ==
            Firsts(KeysOf(group)) + (if next.row.key in KeysOf(group) then [] else [next.row.key])
  {
    KeyAppends(group, next, next.row.key);
    FirstsMean(KeysOf(group));
    FirstsAppend(KeysOf(group), next.row.key);
  }

  lemma VariantsGrow(ids: Ids, content: string, group: seq<Ranked>, variants: seq<Variant>, next: Ranked)
    requires GroupsByKey(ids, content, group, variants)
    ensures GroupsByKey(ids, content, group + [next], Grown(ids, content, Firsts(KeysOf(group)), variants, next))
  {
    hide Extend, Start, Firsts, KeysOf, OfKey, VariantOf, Grown, Distinct;
    KeysGrow(group, next);
    var keys, more := Firsts(KeysOf(group)), Firsts(KeysOf(group + [next]));
    GrownAt(ids, content, keys, variants, next);
    var after := Grown(ids, content, keys, variants, next);
    forall v | 0 <= v < |more|
      ensures OfKey(group + [next], more[v]) != []
      ensures after[v] == VariantOf(ids, content, OfKey(group + [next], more[v]))
    {
      if v < |keys| {
        KnownKeyGrows(ids, content, group, next, keys[v]);
      } else {
        NewKeyStarts(ids, content, group, next);
      }
    }
  }

  lemma {:induction false} VariantOfKey(ids: Ids, content: string, group: seq<Ranked>, key: VariantKey)
    requires group != [] && forall ranked <- group :: ranked.row.key == key
    ensures VariantOf(ids, content, group).key == key
  {
    if |group| > 1 {
      VariantOfKey(ids, content, group[..|group| - 1], key);
    }
  }

  lemma {:induction false} AllOfKey(group: seq<Ranked>, key: VariantKey)
    ensures forall ranked <- OfKey(group, key) :: ranked.row.key == key
  {
    if group != [] {
      AllOfKey(group[..|group| - 1], key);
    }
  }

  /** The variants have the keys of the rows, in order of first appearance. */
  lemma VariantKeys(ids: Ids, content: string, group: seq<Ranked>, variants: seq<Variant>)
    requires GroupsByKey(ids, content, group, variants)
    ensures |variants| == |Firsts(KeysOf(group))|
    ensures forall v :: 0 <= v < |variants| ==> variants[v].key == Firsts(KeysOf(group))[v]
  {
    var keys := Firsts(KeysOf(group));
    forall v | 0 <= v < |variants|
      ensures variants[v].key == keys[v]
    {
      AllOfKey(group, keys[v]);
      VariantOfKey(ids, content, OfKey(group, keys[v]), keys[v]);
    }
  }

  function ContentGrown(ids: Ids, group: seq<Ranked>, content: Content, next: Ranked): Content
    requires |Firsts(KeysOf(group))| == |content.variants|
  {
    content.(languages := AddMissing(content.languages, next.row.languages),
             variants := Grown(ids, content.id, Firsts(KeysOf(group)), content.variants, next))
  }

  lemma ContentGrows(ids: Ids, identity: Identity, group: seq<Ranked>, content: Content, next: Ranked)
    requires Collects(ids, identity, group, content)
    ensures Collects(ids, identity, group + [next], ContentGrown(ids, group, content, next))
  {
    KeyAppends(group, next, next.row.key);
    VariantsGrow(ids, content.id, group, content.variants, next);
  }

  function NewContent(ids: Ids, next: Ranked): Content {
    var id := ids.content(next.row.identity);
    Content(id, next.row.heading, AddMissing([], next.row.languages), [Start(ids, id, next)], 0)
  }

  lemma NewContentCollects(ids: Ids, next: Ranked)
    ensures Collects(ids, next.row.identity, [next], NewContent(ids, next))
  {
    assert [next][..0] == [] && [next.row.key][..0] == [];
    assert KeysOf([next]) == [next.row.key] && Firsts([next.row.key]) == [next.row.key];
    assert OfKey([next], next.row.key) == [next];
  }

  lemma IdentityAppends(rows: seq<Row>, row: Row, identity: Identity)
    ensures IdentitiesOf(rows + [row]) == IdentitiesOf(rows) + [row.identity]
    ensures OfIdentity(rows + [row], identity) ==
            OfIdentity(rows, identity) + (if row.identity == identity then [Ranked(row, |rows|)] else [])
  {
    assert (rows + [row])[..|rows|] == rows;
  }

  ghost predicate HasRow(rows: seq<Row>, identity: Identity, key: VariantKey) {
    exists row <- rows :: row.identity == identity && row.key == key
  }

  lemma HasRowAppends(rows: seq<Row>, row: Row, identity: Identity, key: VariantKey)
    ensures HasRow(rows + [row], identity, key) <==>
              HasRow(rows, identity, key) || (row.identity == identity && row.key == key)
  {
    assert row in rows + [row] && forall other <- rows :: other in rows + [row];
  }

  lemma {:induction false} OfIdentityMeans(rows: seq<Row>, identity: Identity)
    ensures OfIdentity(rows, identity) != [] <==> identity in IdentitiesOf(rows)
  {
    if rows != [] {
      OfIdentityMeans(rows[..|rows| - 1], identity);
    }
  }

  lemma {:induction false} OfIdentityKeys(rows: seq<Row>, identity: Identity, key: VariantKey)
    ensures key in KeysOf(OfIdentity(rows, identity)) <==> HasRow(rows, identity, key)
  {
    if rows != [] {
      var front, last := rows[..|rows| - 1], rows[|rows| - 1];
      assert rows == front + [last];
      OfIdentityKeys(front, identity, key);
      IdentityAppends(front, last, identity);
      HasRowAppends(front, last, identity, key);
      if last.identity == identity {
        KeyAppends(OfIdentity(front, identity), Ranked(last, |front|), last.key);
      } else {
        assert OfIdentity(front, identity) + [] == OfIdentity(front, identity);
      }
      hide HasRow, OfIdentity, IdentitiesOf, KeysOf, OfKey, LanguagesOf;
    }
  }

  // ----- what a variant's sources are -----

  ghost predicate RanksRise(sources: seq<Source>) {
    forall i, j :: 0 <= i < j < |sources| ==> sources[i].priority < sources[j].priority && sources[i].id != sources[j].id
  }

  ghost predicate Comes(ids: Ids, group: seq<Ranked>, source: Source) {
    exists ranked <- group :: SourceOf(ids, ranked) == source
  }

  ghost predicate Stands(ids: Ids, sources: seq<Source>, ranked: Ranked) {
    exists source <- sources :: source.id == SourceOf(ids, ranked).id && source.priority <= ranked.priority
  }

  /** Every source comes from a row, and every row has a source with its identifier that comes no later. */
  ghost predicate SourcesOfRows(ids: Ids, group: seq<Ranked>, sources: seq<Source>) {
    && RanksRise(sources)
    && (forall source <- sources :: Comes(ids, group, source))
    && (forall ranked <- group :: Stands(ids, sources, ranked))
  }

  ghost predicate RowsRise(group: seq<Ranked>) {
    forall i, j :: 0 <= i < j < |group| ==> group[i].priority < group[j].priority
  }

  /** The sources of a group are the first rows with each source identifier, in rising order of priority. */
  lemma {:induction false} SourcesAreFirsts(ids: Ids, content: string, group: seq<Ranked>)
    requires group != [] && RowsRise(group)
    ensures SourcesOfRows(ids, group, VariantOf(ids, content, group).sources)
  {
    var front, last := group[..|group| - 1], group[|group| - 1];
    assert group == front + [last];
    if front == [] {
      var sources := [SourceOf(ids, last)];
      assert group == [last] && VariantOf(ids, content, group).sources == sources;
      assert SourceOf(ids, last) in sources && last in group;
      assert Comes(ids, group, SourceOf(ids, last)) && Stands(ids, sources, last);
    } else {
      SourcesAreFirsts(ids, content, front);
      VariantGrows(ids, content, front, last);
      SourceAdded(ids, VariantOf(ids, content, front).sources, front, last);
      hide SourcesOfRows, VariantOf;
    }
  }

  lemma AddedRises(sources: seq<Source>, front: seq<Ranked>, ids: Ids, last: Ranked)
    requires RanksRise(sources) && forall source <- sources :: Comes(ids, front, source)
    requires forall ranked <- front :: ranked.priority < last.priority
    ensures RanksRise(AddSource(sources, SourceOf(ids, last)))
  {
    forall source <- sources
      ensures source.priority < last.priority
    {
      var ranked :| ranked in front && SourceOf(ids, ranked) == source;
    }
  }

  lemma LastIsLatest(front: seq<Ranked>, last: Ranked)
    requires RowsRise(front + [last])
    ensures forall ranked <- front :: ranked.priority < last.priority
  {
    forall ranked <- front
      ensures ranked.priority < last.priority
    {
      var i :| 0 <= i < |front| && front[i] == ranked;
      assert (front + [last])[i] == ranked && (front + [last])[|front|] == last;
    }
  }

  lemma StillComes(ids: Ids, front: seq<Ranked>, last: Ranked, source: Source)
    requires Comes(ids, front, source) || source == SourceOf(ids, last)
    ensures Comes(ids, front + [last], source)
  {
    assert last in front + [last] && forall ranked <- front :: ranked in front + [last];
  }

  lemma StillStands(ids: Ids, sources: seq<Source>, added: Source, ranked: Ranked)
    requires Stands(ids, sources, ranked)
    ensures Stands(ids, AddSource(sources, added), ranked)
  {
    assert forall source <- sources :: source in AddSource(sources, added);
  }

  lemma LastStands(ids: Ids, front: seq<Ranked>, sources: seq<Source>, last: Ranked)
    requires forall source <- sources :: Comes(ids, front, source)
    requires forall ranked <- front :: ranked.priority < last.priority
    ensures Stands(ids, AddSource(sources, SourceOf(ids, last)), last)
  {
    var added := SourceOf(ids, last);
    if HasSource(sources, added.id) {
      var source :| source in sources && source.id == added.id;
      assert Comes(ids, front, source);
      var ranked :| ranked in front && SourceOf(ids, ranked) == source;
      assert source.priority <= last.priority;
    } else {
      assert added in AddSource(sources, added);
    }
  }

  lemma SourceAdded(ids: Ids, sources: seq<Source>, front: seq<Ranked>, last: Ranked)
    requires SourcesOfRows(ids, front, sources) && RowsRise(front + [last])
    ensures SourcesOfRows(ids, front + [last], AddSource(sources, SourceOf(ids, last)))
  {
    var added := SourceOf(ids, last);
    var after, group := AddSource(sources, added), front + [last];
    LastIsLatest(front, last);
    AddedRises(sources, front, ids, last);
    LastStands(ids, front, sources, last);
    assert forall source <- after :: source in sources || source == added;
    hide RanksRise, RowsRise, Comes, Stands, SourceOf, AddSource;
    forall source <- after
      ensures Comes(ids, group, source)
    {
      StillComes(ids, front, last, source);
    }
    forall ranked <- group
      ensures Stands(ids, after, ranked)
    {
      if ranked in front {
        StillStands(ids, sources, added, ranked);
      }
    }
  }

  lemma {:induction false} RowsOfTitleRise(rows: seq<Row>, identity: Identity)
    ensures RowsRise(OfIdentity(rows, identity))
    ensures forall ranked <- OfIdentity(rows, identity) :: ranked.priority < |rows| && rows[ranked.priority] == ranked.row
  {
    if rows != [] {
      var front, last := rows[..|rows| - 1], |rows| - 1;
      RowsOfTitleRise(front, identity);
      var before := OfIdentity(front, identity);
      assert forall ranked <- before :: ranked.priority < last && front[ranked.priority] == rows[ranked.priority];
      assert OfIdentity(rows, identity) ==
             before + (if rows[last].identity == identity then [Ranked(rows[last], last)] else []);
      hide OfIdentity;
    }
  }

  lemma {:induction false} RowsOfKeyRise(group: seq<Ranked>, key: VariantKey)
    requires RowsRise(group)
    ensures RowsRise(OfKey(group, key))
    ensures forall ranked <- OfKey(group, key) :: ranked in group
  {
    if group != [] {
      var front, last := group[..|group| - 1], group[|group| - 1];
      RowsOfKeyRise(front, key);
      assert group == front + [last];
      LastIsLatest(front, last);
    }
  }

  /** In the grouping the sources of a variant are the first rows with each source identifier among those of its
      title and key, in rising order of priority. */
  lemma GroupedSources(ids: Ids, rows: seq<Row>, contents: seq<Content>, c: nat, v: nat)
    requires GroupsByIdentity(ids, rows, contents) && c < |contents| && v < |contents[c].variants|
    ensures |contents| == |Firsts(IdentitiesOf(rows))|
    ensures var group := OfKey(OfIdentity(rows, Firsts(IdentitiesOf(rows))[c]), contents[c].variants[v].key);
            group != [] && SourcesOfRows(ids, group, contents[c].variants[v].sources)
  {
    var identity := Firsts(IdentitiesOf(rows))[c];
    var group := OfIdentity(rows, identity);
    assert Collects(ids, identity, group, contents[c]);
    VariantKeys(ids, contents[c].id, group, contents[c].variants);
    RowsOfTitleRise(rows, identity);
    RowsOfKeyRise(group, contents[c].variants[v].key);
    SourcesAreFirsts(ids, contents[c].id, OfKey(group, contents[c].variants[v].key));
  }

  lemma {:induction false} IdentitiesAppend(rows: seq<Row>, more: seq<Row>)
    ensures IdentitiesOf(rows + more) == IdentitiesOf(rows) + IdentitiesOf(more)
  {
    if more == [] {
      assert rows + more == rows;
    } else {
      var front, last := more[..|more| - 1], more[|more| - 1];
      assert rows + more == (rows + front) + [last] && (rows + more)[..|rows + front|] == rows + front;
      IdentitiesAppend(rows, front);
    }
  }

  // ----- more rows extend what is there -----

  ghost predicate VariantExtends(before: Variant, after: Variant) {
    && after.id == before.id && after.key == before.key && after.size == before.size
    && before.qualities <= after.qualities && before.sources <= after.sources
  }

  /** The title keeps its identifier and heading, and its languages, its variants and their qualities and sources
      are the beginning of the new ones. */
  ghost predicate ContentExtends(before: Content, after: Content) {
    && after.id == before.id && after.heading == before.heading
    && before.languages <= after.languages
    && |before.variants| <= |after.variants|
    && forall v :: 0 <= v < |before.variants| ==> VariantExtends(before.variants[v], after.variants[v])
  }

  lemma {:induction false} MissingExtend(have: seq<string>, more: seq<string>)
    ensures have <= AddMissing(have, more)
  {
    if more != [] {
      MissingExtend(have, more[..|more| - 1]);
    }
  }

  lemma {:induction false} VariantGrowsBy(ids: Ids, content: string, group: seq<Ranked>, more: seq<Ranked>)
    requires group != []
    ensures VariantExtends(VariantOf(ids, content, group), VariantOf(ids, content, group + more))
  {
    if more == [] {
      assert group + more == group;
    } else {
      var front, last := more[..|more| - 1], more[|more| - 1];
      assert group + more == (group + front) + [last];
      VariantGrowsBy(ids, content, group, front);
      VariantGrows(ids, content, group + front, last);
      var mid := VariantOf(ids, content, group + front);
      hide VariantOf;
      MissingExtend(mid.qualities, last.row.qualities);
    }
  }

  lemma {:induction false} GroupsAppend(group: seq<Ranked>, more: seq<Ranked>, key: VariantKey)
    ensures KeysOf(group + more) == KeysOf(group) + KeysOf(more)
    ensures OfKey(group + more, key) == OfKey(group, key) + OfKey(more, key)
    ensures LanguagesOf(group) <= LanguagesOf(group + more)
  {
    if more == [] {
      assert group + more == group;
    } else {
      var front, last := more[..|more| - 1], more[|more| - 1];
      assert group + more == (group + front) + [last] && front + [last] == more;
      GroupsAppend(group, front, key);
      KeyAppends(group + front, last, key);
      KeyAppends(front, last, key);
      hide KeysOf, OfKey, LanguagesOf;
      MissingExtend(LanguagesOf(group + front), last.row.languages);
    }
  }

  lemma VariantsExtend(
    ids: Ids, content: string, group: seq<Ranked>, more: seq<Ranked>, before: seq<Variant>, after: seq<Variant>)
    requires GroupsByKey(ids, content, group, before) && GroupsByKey(ids, content, group + more, after)
    ensures |before| <= |after|
    ensures forall v :: 0 <= v < |before| ==> VariantExtends(before[v], after[v])
  {
    var keys, longer := Firsts(KeysOf(group)), Firsts(KeysOf(group + more));
    assert keys <= longer by {
      if group != [] {
        GroupsAppend(group, more, group[0].row.key);
      }
      FirstsExtend(KeysOf(group), KeysOf(more));
    }
    hide Firsts, KeysOf, VariantExtends, VariantOf, OfKey;
    forall v | 0 <= v < |before|
      ensures VariantExtends(before[v], after[v])
    {
      assert longer[v] == keys[v];
      GroupsAppend(group, more, keys[v]);
      VariantGrowsBy(ids, content, OfKey(group, keys[v]), OfKey(more, keys[v]));
    }
  }

  lemma {:induction false} RowsOfTitleExtend(rows: seq<Row>, more: seq<Row>, identity: Identity)
    ensures OfIdentity(rows, identity) <= OfIdentity(rows + more, identity)
  {
    if more == [] {
      assert rows + more == rows;
    } else {
      var front, last := more[..|more| - 1], more[|more| - 1];
      assert rows + more == (rows + front) + [last];
      RowsOfTitleExtend(rows, front, identity);
      IdentityAppends(rows + front, last, identity);
    }
  }

  lemma TitleExtends(
    ids: Ids, identity: Identity, group: seq<Ranked>, longer: seq<Ranked>, before: Content, after: Content)
    requires group <= longer
    requires Collects(ids, identity, group, before) && Collects(ids, identity, longer, after)
    ensures ContentExtends(before, after)
  {
    var more := longer[|group|..];
    assert longer == group + more;
    GroupsAppend(group, more, group[0].row.key);
    hide LanguagesOf, GroupsByKey, KeysOf, OfKey, VariantExtends;
    VariantsExtend(ids, before.id, group, more, before.variants, after.variants);
  }

  /** Grouping more rows keeps the titles so far in their places and extends each of them. */
  lemma LongerInputExtends(
    ids: Ids, rows: seq<Row>, more: seq<Row>, contents: seq<Content>, longer: seq<Content>)
    requires GroupsByIdentity(ids, rows, contents) && GroupsByIdentity(ids, rows + more, longer)
    ensures |contents| <= |longer|
    ensures forall c :: 0 <= c < |contents| ==> ContentExtends(contents[c], longer[c])
  {
    var identities, all := Firsts(IdentitiesOf(rows)), Firsts(IdentitiesOf(rows + more));
    IdentitiesAppend(rows, more);
    FirstsExtend(IdentitiesOf(rows), IdentitiesOf(more));
    hide Firsts, IdentitiesOf, OfIdentity, Collects, ContentExtends;
    forall c | 0 <= c < |contents|
      ensures ContentExtends(contents[c], longer[c])
    {
      assert all[c] == identities[c];
      RowsOfTitleExtend(rows, more, identities[c]);
      TitleExtends(
        ids, identities[c], OfIdentity(rows, identities[c]), OfIdentity(rows + more, identities[c]), contents[c], longer[c]);
    }
  }

  // ----- what a listed variant says about itself -----

  lemma {:induction false} VariantOfId(ids: Ids, content: string, group: seq<Ranked>, key: VariantKey)
    requires group != [] && forall ranked <- group :: ranked.row.key == key
    ensures VariantOf(ids, content, group).id == ids.variant(content, key)
  {
    if |group| > 1 {
      VariantOfId(ids, content, group[..|group| - 1], key);
    }
  }

  lemma {:induction false} RowsAreOfTitle(rows: seq<Row>, identity: Identity)
    ensures forall ranked <- OfIdentity(rows, identity) :: ranked.row.identity == identity
  {
    if rows != [] {
      RowsAreOfTitle(rows[..|rows| - 1], identity);
    }
  }

  /** A listed variant has the identifier and the key of its place, and its first source is a row of its title. */
  lemma ListedVariant(ids: Ids, rows: seq<Row>, contents: seq<Content>, c: nat, v: nat)
    requires GroupsByIdentity(ids, rows, contents) && c < |contents| && v < |contents[c].variants|
    ensures c < |Firsts(IdentitiesOf(rows))|
    ensures var identity := Firsts(IdentitiesOf(rows))[c];
            var keys, variant := Firsts(KeysOf(OfIdentity(rows, identity))), contents[c].variants[v];
            && contents[c].id == ids.content(identity)
            && |keys| == |contents[c].variants|
            && variant.key == keys[v] && variant.id == ids.variant(contents[c].id, keys[v])
            && variant.sources != [] && variant.sources[0].candidate.identity == identity
  {
    var identity := Firsts(IdentitiesOf(rows))[c];
    var group := OfIdentity(rows, identity);
    assert Collects(ids, identity, group, contents[c]);
    var keys, variant := Firsts(KeysOf(group)), contents[c].variants[v];
    VariantKeys(ids, contents[c].id, group, contents[c].variants);
    AllOfKey(group, keys[v]);
    VariantOfId(ids, contents[c].id, OfKey(group, keys[v]), keys[v]);
    GroupedSources(ids, rows, contents, c, v);
    hide Collects, GroupsByKey, GroupsByIdentity, VariantOf, KeysOf, Firsts, IdentitiesOf;
    FirstSource(ids, rows, identity, OfKey(group, keys[v]), variant.sources, keys[v]);
  }

  lemma FirstSource(
    ids: Ids, rows: seq<Row>, identity: Identity, group: seq<Ranked>, sources: seq<Source>, key: VariantKey)
    requires group == OfKey(OfIdentity(rows, identity), key) && group != []
    requires SourcesOfRows(ids, group, sources)
    ensures sources != [] && sources[0].candidate.identity == identity
  {
    RowsAreOfTitle(rows, identity);
    RowsOfTitleRise(rows, identity);
    RowsOfKeyRise(OfIdentity(rows, identity), key);
    hide OfKey, OfIdentity, RanksRise, RowsRise;
    assert Stands(ids, sources, group[0]);
    assert Comes(ids, group, sources[0]);
    var ranked :| ranked in group && SourceOf(ids, ranked) == sources[0];
  }
}
