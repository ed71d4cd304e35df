/** A mapping with a hard entry limit that drops the least recently used entry. Its rows are kept from the
    least to the most recently used. Each call holds one lock throughout, so a run is a sequence of calls. */
module LruCache {
  import opened Collections
  import opened Wrappers

  type Key(==, !new)

  type Value(!new)

  datatype Row = Row(key: Key, value: Value)

  ghost predicate UniqueKeys(rows: seq<Row>) {
    forall i, j :: 0 <= i < j < |rows| ==> rows[i].key != rows[j].key
  }

  ghost predicate HasKey(rows: seq<Row>, key: Key) {
    exists row <- rows :: row.key == key
  }

  function ValueOf(rows: seq<Row>, key: Key): Option<Value> {
    if rows == [] then None
    else if rows[0].key == key then Some(rows[0].value)
    else ValueOf(rows[1..], key)
  }

  function Without(rows: seq<Row>, key: Key): seq<Row> {
    if rows == [] then []
    else if rows[0].key == key then Without(rows[1..], key)
    else [rows[0]] + Without(rows[1..], key)
  }

  /** The newest rows, no more than the limit. */
  function Newest(rows: seq<Row>, limit: nat): seq<Row> {
    if |rows| <= limit then rows else rows[|rows| - limit..]
  }

  // ----- what each call does to the rows -----

  datatype Call = Set(key: Key, value: Value) | Get(key: Key) | Delete(key: Key) | Clear

  function Touch(rows: seq<Row>, key: Key): seq<Row> {
    match ValueOf(rows, key)
    case None => rows
    case Some(value) => Without(rows, key) + [Row(key, value)]
  }

  function Apply(rows: seq<Row>, call: Call, limit: nat): seq<Row> {
    match call
    case Set(key, value) => Newest(Without(rows, key) + [Row(key, value)], limit)
    case Get(key) => Touch(rows, key)
    case Delete(key) => Without(rows, key)
    case Clear => []
  }

  /** The rows of a cache with this limit after a run of calls. */
  function After(calls: seq<Call>, limit: nat): seq<Row> {
    if calls == [] then [] else Apply(After(calls[..|calls| - 1], limit), calls[|calls| - 1], limit)
  }

  // ----- removing a key -----

  lemma {:induction false} WithoutRemoves(rows: seq<Row>, key: Key)
    ensures forall row :: row in Without(rows, key) <==> row in rows && row.key != key
  {
    if rows != [] {
      WithoutRemoves(rows[1..], key);
      assert rows == [rows[0]] + rows[1..];
    }
  }

  lemma {:induction false} WithoutIsUnique(rows: seq<Row>, key: Key)
    requires UniqueKeys(rows)
    ensures UniqueKeys(Without(rows, key))
    ensures !HasKey(rows, key) ==> Without(rows, key) == rows
    ensures |Without(rows, key)| == if HasKey(rows, key) then |rows| - 1 else |rows|
  {
    if rows != [] {
      UniqueTail(rows);
      WithoutIsUnique(rows[1..], key);
      WithoutRemoves(rows[1..], key);
      PrependUnique(rows[0], Without(rows[1..], key));
      hide UniqueKeys, HasKey;
    }
  }

  lemma UniqueTail(rows: seq<Row>)
    requires rows != []
    ensures UniqueKeys(rows) ==> UniqueKeys(rows[1..]) && forall row <- rows[1..] :: row.key != rows[0].key
    ensures forall key :: HasKey(rows, key) <==> rows[0].key == key || HasKey(rows[1..], key)
  {
    assert rows == [rows[0]] + rows[1..];
    forall key
      ensures HasKey(rows, key) <==> rows[0].key == key || HasKey(rows[1..], key)
    {
      if HasKey(rows, key) {
        var row :| row in rows && row.key == key;
        assert row == rows[0] || row in rows[1..];
      }
    }
  }

  lemma PrependUnique(row: Row, rows: seq<Row>)
    ensures UniqueKeys(rows) && (forall other <- rows :: other.key != row.key) ==> UniqueKeys([row] + rows)
  {
  }

  lemma AppendUnique(rows: seq<Row>, row: Row)
    requires UniqueKeys(rows) && forall other <- rows :: other.key != row.key
    ensures UniqueKeys(rows + [row])
  {
  }

  lemma {:induction false} ValueOfMeans(rows: seq<Row>, key: Key)
    ensures ValueOf(rows, key).Some? <==> HasKey(rows, key)
    ensures ValueOf(rows, key).Some? ==> Row(key, ValueOf(rows, key).value) in rows
    ensures UniqueKeys(rows) ==> forall row <- rows :: row.key == key ==> ValueOf(rows, key) == Some(row.value)
  {
    if rows != [] {
      UniqueTail(rows);
      ValueOfMeans(rows[1..], key);
      assert rows == [rows[0]] + rows[1..];
    }
  }

  // ----- the limit, and the value of a hit -----

  ghost predicate Bounded(rows: seq<Row>, limit: nat) {
    UniqueKeys(rows) && |rows| <= limit
  }

  lemma AppendedIs(rows: seq<Row>, last: Row)
    ensures forall row :: row in rows + [last] <==> row in rows || row == last
  {
  }

  lemma NewestKeeps(rows: seq<Row>, limit: nat)
    requires UniqueKeys(rows)
    ensures Bounded(Newest(rows, limit), limit)
    ensures forall row <- Newest(rows, limit) :: row in rows
  {
  }

  lemma SetRows(rows: seq<Row>, key: Key, value: Value)
    requires UniqueKeys(rows)
    ensures var updated := Without(rows, key) + [Row(key, value)];
            && UniqueKeys(updated)
            && |updated| == |rows| + (if HasKey(rows, key) then 0 else 1)
            && forall row :: row in updated <==> (row in rows && row.key != key) || row == Row(key, value)
  {
    WithoutRemoves(rows, key);
    WithoutIsUnique(rows, key);
    hide UniqueKeys, HasKey, Without;
    forall other <- Without(rows, key)
      ensures other.key != key
    {
    }
    AppendUnique(Without(rows, key), Row(key, value));
    AppendedIs(Without(rows, key), Row(key, value));
  }

  lemma TouchMeans(rows: seq<Row>, key: Key)
    requires UniqueKeys(rows)
    ensures UniqueKeys(Touch(rows, key)) && |Touch(rows, key)| == |rows|
    ensures forall row :: row in Touch(rows, key) <==> row in rows
  {
    ValueOfMeans(rows, key);
    if ValueOf(rows, key).Some? {
      var value := ValueOf(rows, key).value;
      SetRows(rows, key, value);
      hide Without, ValueOf;
      assert Touch(rows, key) == Without(rows, key) + [Row(key, value)];
    }
  }

  lemma ApplyKeeps(rows: seq<Row>, call: Call, limit: nat)
    requires Bounded(rows, limit)
    ensures Bounded(Apply(rows, call, limit), limit)
    ensures call.Set? ==>
              forall row <- Apply(rows, call, limit) :: row == Row(call.key, call.value) || (row in rows && row.key != call.key)
    ensures call.Get? ==> forall row :: row in Apply(rows, call, limit) <==> row in rows
    ensures call.Delete? ==> forall row :: row in Apply(rows, call, limit) <==> row in rows && row.key != call.key
  {
    hide Without, Newest, Touch;
    match call
    case Set(key, value) =>
      SetRows(rows, key, value);
      NewestKeeps(Without(rows, key) + [Row(key, value)], limit);
    case Get(key) => TouchMeans(rows, key);
    case Delete(key) =>
      WithoutRemoves(rows, key);
      WithoutIsUnique(rows, key);
    case Clear =>
  }

  /** The value a key was last set to, unless it was deleted or everything was cleared since. */
  function LastSet(calls: seq<Call>, key: Key): Option<Value> {
    if calls == [] then None
    else
      match calls[|calls| - 1]
      case Set(k, v) => if k == key then Some(v) else LastSet(calls[..|calls| - 1], key)
      case Get(_) => LastSet(calls[..|calls| - 1], key)
      case Delete(k) => if k == key then None else LastSet(calls[..|calls| - 1], key)
      case Clear => None
  }

  /** After any run the cache is within its limit, and every hit is the value last set. */
  lemma {:induction false} HitsAreCurrent(calls: seq<Call>, limit: nat)
    ensures Bounded(After(calls, limit), limit)
    ensures forall row <- After(calls, limit) :: LastSet(calls, row.key) == Some(row.value)
  {
    if calls != [] {
      var before, call := calls[..|calls| - 1], calls[|calls| - 1];
      HitsAreCurrent(before, limit);
      ApplyKeeps(After(before, limit), call, limit);
      hide Apply, Bounded;
    }
  }

  // ----- a smaller cache holds an order-preserving part of a larger one -----

  /** Every row of the first, in the same order, is among the second's. */
  ghost predicate Embeds(small: seq<Row>, large: seq<Row>) {
    if small == [] then true
    else if large == [] then false
    else if small[0] == large[0] then Embeds(small[1..], large[1..])
    else Embeds(small, large[1..])
  }

  lemma {:induction false} EmbedsMeans(small: seq<Row>, large: seq<Row>)
    requires Embeds(small, large)
    ensures |small| <= |large|
    ensures forall row <- small :: row in large
    ensures small != [] ==> Embeds(small[1..], large)
    ensures small != [] && large != [] && small[0] != large[0] ==> Embeds(small, large[1..])
    decreases |large|, 1
  {
    if small != [] {
      assert small == [small[0]] + small[1..] && large == [large[0]] + large[1..];
      if small[0] == large[0] {
        EmbedsMeans(small[1..], large[1..]);
        EmbedsTail(small[1..], large);
      } else {
        EmbedsMeans(small, large[1..]);
        EmbedsTail(small[1..], large);
      }
    }
  }

  lemma EmbedsTail(small: seq<Row>, large: seq<Row>)
    requires large != [] && Embeds(small, large[1..])
    ensures Embeds(small, large)
    decreases |large|, 0
  {
    if small != [] && small[0] == large[0] {
      EmbedsMeans(small, large[1..]);
    }
  }

  lemma {:induction false} EmbedsWithout(small: seq<Row>, large: seq<Row>, key: Key)
    requires Embeds(small, large)
    ensures Embeds(Without(small, key), Without(large, key))
  {
    if small != [] {
      if small[0] == large[0] {
        EmbedsWithout(small[1..], large[1..], key);
        if small[0].key != key {
          assert Without(small, key)[1..] == Without(small[1..], key);
          assert Without(large, key)[1..] == Without(large[1..], key);
        }
      } else {
        EmbedsWithout(small, large[1..], key);
        if large[0].key != key {
          assert Without(large, key)[1..] == Without(large[1..], key);
          EmbedsTail(Without(small, key), Without(large, key));
        }
      }
    }
  }

  lemma {:induction false} EmbedsAppend(small: seq<Row>, large: seq<Row>, row: Row)
    requires Embeds(small, large)
    ensures Embeds(small + [row], large + [row])
  {
    if large == [] {
      assert [row][1..] == [];
      assert small + [row] == [row] && large + [row] == [row];
    } else {
      assert (large + [row])[1..] == large[1..] + [row];
      if small != [] && small[0] == large[0] {
        assert (small + [row])[1..] == small[1..] + [row];
        EmbedsAppend(small[1..], large[1..], row);
      } else {
        EmbedsAppend(small, large[1..], row);
        EmbedsTail(small + [row], large + [row]);
      }
    }
  }

  /** What two caches fed the same calls keep: the smaller is an order-preserving part of the larger, and has
      no more room to spare. */
  ghost predicate Included(small: seq<Row>, large: seq<Row>, m: nat, n: nat) {
    && Bounded(small, m) && Bounded(large, n)
    && Embeds(small, large)
    && |large| - |small| <= n - m
  }

  lemma EvictionKeeps(small: seq<Row>, large: seq<Row>, m: nat, n: nat)
    requires 1 <= m <= n
    requires UniqueKeys(small) && UniqueKeys(large) && Embeds(small, large)
    requires |small| <= m + 1 && |large| <= n + 1
    requires |small| <= m ==> |large| - |small| <= n - m
    ensures Included(Newest(small, m), Newest(large, n), m, n)
  {
    EmbedsMeans(small, large);
    NewestKeeps(small, m);
    NewestKeeps(large, n);
    if |small| == m + 1 {
      EmbedsMeans(small[1..], large);
      if |large| == n + 1 && small[0] == large[0] {
        assert Embeds(small[1..], large[1..]);
      } else if |large| == n + 1 {
        EmbedsMeans(small, large[1..]);
      }
    }
  }

  lemma StepKeepsInclusion(small: seq<Row>, large: seq<Row>, call: Call, m: nat, n: nat)
    requires 1 <= m <= n && Included(small, large, m, n)
    ensures Included(Apply(small, call, m), Apply(large, call, n), m, n)
  {
    hide Without, ValueOf, Newest, UniqueKeys, Embeds, HasKey;
    EmbedsMeans(small, large);
    ApplyKeeps(small, call, m);
    ApplyKeeps(large, call, n);
    if !call.Clear? {
      var key := call.key;
      EmbedsWithout(small, large, key);
      KeyEmbeds(small, large, key);
      match call
      case Set(_, value) =>
        SetRows(small, key, value);
        SetRows(large, key, value);
        EmbedsAppend(Without(small, key), Without(large, key), Row(key, value));
        EvictionKeeps(Without(small, key) + [Row(key, value)], Without(large, key) + [Row(key, value)], m, n);
      case Get(_) =>
        TouchKeepsInclusion(small, large, key);
        TouchMeans(small, key);
        TouchMeans(large, key);
      case Delete(_) =>
        WithoutIsUnique(small, key);
        WithoutIsUnique(large, key);
    } else {
      NoneEmbeds();
    }
  }

  lemma NoneEmbeds()
    ensures Embeds([], [])
  {
  }

  lemma KeyEmbeds(small: seq<Row>, large: seq<Row>, key: Key)
    requires forall row <- small :: row in large
    ensures HasKey(small, key) ==> HasKey(large, key)
  {
  }

  lemma TouchKeepsInclusion(small: seq<Row>, large: seq<Row>, key: Key)
    requires UniqueKeys(small) && UniqueKeys(large) && Embeds(small, large)
    ensures Embeds(Touch(small, key), Touch(large, key))
  {
    hide Without, UniqueKeys, Embeds;
    EmbedsMeans(small, large);
    EmbedsWithout(small, large, key);
    KeyEmbeds(small, large, key);
    ValueOfMeans(small, key);
    ValueOfMeans(large, key);
    hide ValueOf;
    match (ValueOf(small, key), ValueOf(large, key)) {
      case (Some(a), Some(b)) =>
        assert Row(key, a) in large && a == b;
        EmbedsAppend(Without(small, key), Without(large, key), Row(key, a));
      case (None, Some(b)) =>
        WithoutIsUnique(small, key);
        EmbedsMore(small, Without(large, key), Row(key, b));
      case (None, None) =>
    }
  }

  lemma {:induction false} EmbedsMore(small: seq<Row>, large: seq<Row>, row: Row)
    requires Embeds(small, large)
    ensures Embeds(small, large + [row])
  {
    if small != [] {
      assert (large + [row])[1..] == large[1..] + [row];
      if small[0] == large[0] {
        EmbedsMore(small[1..], large[1..], row);
      } else {
        EmbedsMore(small, large[1..], row);
      }
    }
  }

  /** For one shared run of calls the smaller cache holds an order-preserving part of the larger one's rows. */
  lemma {:induction false} SmallerIsIncluded(calls: seq<Call>, m: nat, n: nat)
    requires 1 <= m <= n
    ensures Included(After(calls, m), After(calls, n), m, n)
  {
    if calls == [] {
      NoneEmbeds();
    } else {
      SmallerIsIncluded(calls[..|calls| - 1], m, n);
      StepKeepsInclusion(After(calls[..|calls| - 1], m), After(calls[..|calls| - 1], n), calls[|calls| - 1], m, n);
      hide Included, Apply;
    }
  }

  // ----- nothing is dropped too early -----

  /** The keys a run sets or reads. */
  function Used(calls: seq<Call>): set<Key> {
    if calls == [] then {}
    else
      var earlier := Used(calls[..|calls| - 1]);
      match calls[|calls| - 1]
      case Set(key, _) => earlier + {key}
      case Get(key) => earlier + {key}
      case Delete(_) => earlier
      case Clear => earlier
  }

  predicate Leaves(calls: seq<Call>, key: Key) {
    forall call <- calls :: !call.Clear? && (call.Delete? || call.Set? ==> call.key != key)
  }

  ghost function KeysOf(rows: seq<Row>): set<Key> {
    set row <- rows :: row.key
  }

  /** The row is there, and every row used more recently has one of the keys. */
  ghost predicate HeldBehind(rows: seq<Row>, row: Row, keys: set<Key>) {
    exists i :: 0 <= i < |rows| && rows[i] == row && KeysOf(rows[i + 1..]) <= keys
  }

  lemma {:induction false} KeysCount(rows: seq<Row>)
    requires UniqueKeys(rows)
    ensures |KeysOf(rows)| == |rows|
  {
    if rows != [] {
      UniqueTail(rows);
      KeysCount(rows[1..]);
      assert rows == [rows[0]] + rows[1..];
      assert KeysOf(rows) == KeysOf(rows[1..]) + {rows[0].key};
    }
  }

  lemma {:induction false} WithoutAppends(a: seq<Row>, b: seq<Row>, key: Key)
    ensures Without(a + b, key) == Without(a, key) + Without(b, key)
  {
    if a == [] {
      assert a + b == b;
    } else {
      assert (a + b)[1..] == a[1..] + b;
      WithoutAppends(a[1..], b, key);
    }
  }

  lemma HeldBetween(front: seq<Row>, row: Row, back: seq<Row>, keys: set<Key>)
    requires KeysOf(back) <= keys
    ensures HeldBehind(front + ([row] + back), row, keys)
  {
    hide KeysOf;
    var rows, i := front + ([row] + back), |front|;
    assert rows[i] == row && rows[i + 1..] == back;
  }

  lemma SplitHeld(rows: seq<Row>, row: Row, keys: set<Key>) returns (front: seq<Row>, back: seq<Row>)
    requires HeldBehind(rows, row, keys)
    ensures rows == front + ([row] + back) && KeysOf(back) <= keys
  {
    hide KeysOf;
    var i :| 0 <= i < |rows| && rows[i] == row && KeysOf(rows[i + 1..]) <= keys;
    front, back := rows[..i], rows[i + 1..];
  }

  lemma FewerKeys(rows: seq<Row>, key: Key)
    ensures KeysOf(Without(rows, key)) <= KeysOf(rows)
  {
    WithoutRemoves(rows, key);
    hide Without;
  }

  /** Taking another row out leaves the row held. */
  lemma RemovalHolds(rows: seq<Row>, row: Row, keys: set<Key>, key: Key)
    requires HeldBehind(rows, row, keys) && key != row.key
    ensures HeldBehind(Without(rows, key), row, keys)
  {
    assert Without([row], key) == [row] by { assert [row][1..] == []; }
    hide HeldBehind, KeysOf, Without;
    var front, back := SplitHeld(rows, row, keys);
    WithoutAppends(front, [row] + back, key);
    WithoutAppends([row], back, key);
    FewerKeys(back, key);
    HeldBetween(Without(front, key), row, Without(back, key), keys);
  }

  lemma AppendHolds(rows: seq<Row>, row: Row, keys: set<Key>, last: Row)
    requires HeldBehind(rows, row, keys)
    ensures HeldBehind(rows + [last], row, keys + {last.key})
  {
    var i :| 0 <= i < |rows| && rows[i] == row && KeysOf(rows[i + 1..]) <= keys;
    assert (rows + [last])[i + 1..] == rows[i + 1..] + [last];
    assert (rows + [last])[i] == row;
  }

  /** An eviction drops rows used before the ones behind it; fewer than the limit are behind this one. */
  lemma EvictionHolds(rows: seq<Row>, row: Row, keys: set<Key>, limit: nat)
    requires HeldBehind(rows, row, keys) && UniqueKeys(rows) && |keys - {row.key}| < limit
    ensures HeldBehind(Newest(rows, limit), row, keys)
  {
    var i :| 0 <= i < |rows| && rows[i] == row && KeysOf(rows[i + 1..]) <= keys;
    var back := rows[i + 1..];
    KeysCount(back);
    assert KeysOf(back) <= keys - {row.key};
    SubsetIsSmaller(KeysOf(back), keys - {row.key});
    var dropped := |rows| - limit;
    if dropped > 0 {
      assert i >= dropped;
      assert rows[dropped..][i - dropped] == row;
      assert rows[dropped..][i - dropped + 1..] == back;
    }
  }

  lemma StepHolds(rows: seq<Row>, call: Call, row: Row, keys: set<Key>, more: set<Key>, limit: nat)
    requires Bounded(rows, limit) && HeldBehind(rows, row, keys)
    requires Leaves([call], row.key) && |more - {row.key}| < limit
    requires more == match call case Set(key, _) => keys + {key} case Get(key) => keys + {key} case _ => keys
    ensures HeldBehind(Apply(rows, call, limit), row, more)
  {
    assert call in [call];
    hide Without, HeldBehind, ValueOf, UniqueKeys, Newest, HasKey;
    match call
    case Set(key, value) =>
      RemovalHolds(rows, row, keys, key);
      AppendHolds(Without(rows, key), row, keys, Row(key, value));
      SetRows(rows, key, value);
      EvictionHolds(Without(rows, key) + [Row(key, value)], row, more, limit);
    case Get(key) =>
      TouchHolds(rows, row, keys, key);
    case Delete(key) =>
      RemovalHolds(rows, row, keys, key);
  }

  lemma TouchHolds(rows: seq<Row>, row: Row, keys: set<Key>, key: Key)
    requires UniqueKeys(rows) && HeldBehind(rows, row, keys)
    ensures HeldBehind(Touch(rows, key), row, keys + {key})
  {
    hide Without, UniqueKeys;
    ValueOfMeans(rows, key);
    if ValueOf(rows, key).Some? {
      var last := Row(key, ValueOf(rows, key).value);
      hide ValueOf;
      if key == row.key {
        var held := Without(rows, key) + [last];
        assert row in rows && last == row;
        assert held[|held| - 1] == row && held[|held|..] == [];
      } else {
        RemovalHolds(rows, row, keys, key);
        AppendHolds(Without(rows, key), row, keys, last);
      }
    } else {
      var i :| 0 <= i < |rows| && rows[i] == row && KeysOf(rows[i + 1..]) <= keys;
      assert KeysOf(rows[i + 1..]) <= keys + {key};
    }
  }

  /** The call uses the row: it sets it, or it reads it and finds it. */
  ghost predicate Uses(rows: seq<Row>, call: Call, row: Row) {
    call == Set(row.key, row.value) || (call == Get(row.key) && ValueOf(rows, row.key) == Some(row.value))
  }

  lemma HeldAtFirst(rows: seq<Row>, call: Call, row: Row, limit: nat)
    requires Bounded(rows, limit) && 0 < limit && Uses(rows, call, row)
    ensures HeldBehind(Apply(rows, call, limit), row, {})
  {
    var all := Without(rows, row.key) + [row];
    SetRows(rows, row.key, row.value);
    hide Without, Newest, UniqueKeys, HasKey, ValueOf;
    assert all[|all| - 1] == row && all[|all|..] == [];
    assert KeysOf([]) == {};
    assert HeldBehind(all, row, {});
    if call.Set? {
      EvictionHolds(all, row, {}, limit);
    }
  }

  lemma {:induction false} HeldThroughout(before: seq<Call>, use: Call, row: Row, later: seq<Call>, limit: nat)
    requires Uses(After(before, limit), use, row)
    requires Leaves(later, row.key) && |Used(later) - {row.key}| < limit
    ensures HeldBehind(After(before + [use] + later, limit), row, Used(later))
  {
    hide HeldBehind, Apply, LastSet, Uses;
    var all := before + [use] + later;
    var last := |all| - 1;
    HitsAreCurrent(all[..last], limit);
    if later == [] {
      assert all[..last] == before && all[last] == use;
      HeldAtFirst(After(before, limit), use, row, limit);
    } else {
      var earlier, call := later[..|later| - 1], later[|later| - 1];
      assert all[..last] == before + [use] + earlier && all[last] == call;
      assert call in later;
      assert forall other <- earlier :: other in later;
      SubsetIsSmaller(Used(earlier) - {row.key}, Used(later) - {row.key});
      HeldThroughout(before, use, row, earlier, limit);
      StepHolds(After(all[..last], limit), call, row, Used(earlier), Used(later), limit);
    }
  }

  /** A value that was set, or read and found, stays available as long as it is not overwritten, deleted or cleared
      and fewer than `limit` other keys have been used since. */
  lemma RecentlyUsedIsKept(before: seq<Call>, use: Call, key: Key, value: Value, later: seq<Call>, limit: nat)
    requires Uses(After(before, limit), use, Row(key, value))
    requires Leaves(later, key) && |Used(later) - {key}| < limit
    ensures ValueOf(After(before + [use] + later, limit), key) == Some(value)
  {
    var all := before + [use] + later;
    HeldThroughout(before, use, Row(key, value), later, limit);
    HitsAreCurrent(all, limit);
    ValueOfMeans(After(all, limit), key);
    hide After, ValueOf, LastSet, UniqueKeys, KeysOf, Leaves, Used;
    var i :| 0 <= i < |After(all, limit)| && After(all, limit)[i] == Row(key, value);
    assert Row(key, value) in After(all, limit);
  }

  // ----- the cache itself -----

  class BoundedCache {
    const maxEntries: nat
    var rows: seq<Row>

    ghost predicate Valid()
      reads this
    {
      maxEntries >= 1 && Bounded(rows, maxEntries)
    }

    constructor (limit: int)
      ensures Valid() && rows == [] && maxEntries == if limit < 1 then 1 else limit
    {
      maxEntries := if limit < 1 then 1 else limit;
      rows := [];
    }

    /** Sets a key and drops the least recently used rows over the limit. */
    method SetItem(key: Key, value: Value)
      requires Valid()
      modifies this
      ensures Valid() && rows == Apply(old(rows), Set(key, value), maxEntries)
    {
      SetRows(rows, key, value);
      NewestKeeps(Without(rows, key) + [Row(key, value)], maxEntries);
      hide UniqueKeys, HasKey;
      rows := Without(rows, key) + [Row(key, value)];
      ghost var all := rows;
      while |rows| > maxEntries
        invariant |rows| >= maxEntries || rows == all
        invariant |rows| <= |all| && rows == all[|all| - |rows|..]
        decreases |rows|
      {
        rows := rows[1..];
      }
      assert rows == Newest(all, maxEntries);
    }

    /** The value of a key, which becomes the most recently used, or nothing. */
    method GetItem(key: Key) returns (value: Option<Value>)
      requires Valid()
      modifies this
      ensures Valid() && rows == Apply(old(rows), Get(key), maxEntries)
      ensures value == ValueOf(old(rows), key)
    {
      TouchMeans(rows, key);
      value := ValueOf(rows, key);
      if value.Some? {
        rows := Without(rows, key) + [Row(key, value.value)];
      }
    }

    method GetOr(key: Key, fallback: Value) returns (value: Value)
      requires Valid()
      modifies this
      ensures Valid() && rows == Apply(old(rows), Get(key), maxEntries)
      ensures value == if ValueOf(old(rows), key).Some? then ValueOf(old(rows), key).value else fallback
    {
      var found := GetItem(key);
      value := if found.Some? then found.value else fallback;
    }

    /** Deleting a missing key is refused and changes nothing. */
    method DeleteItem(key: Key) returns (deleted: bool)
      requires Valid()
      modifies this
      ensures Valid() && rows == Apply(old(rows), Delete(key), maxEntries)
      ensures deleted == HasKey(old(rows), key)
      ensures !deleted ==> rows == old(rows)
    {
      ValueOfMeans(rows, key);
      WithoutRemoves(rows, key);
      WithoutIsUnique(rows, key);
      deleted := ValueOf(rows, key).Some?;
      if deleted {
        rows := Without(rows, key);
      }
    }

    method Clear()
      requires Valid()
      modifies this
      ensures Valid() && rows == []
    {
      rows := [];
    }

    method Size() returns (size: nat)
      requires Valid()
      ensures size == |rows| <= maxEntries
    {
      size := |rows|;
    }
  }
}
