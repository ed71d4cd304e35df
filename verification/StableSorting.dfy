/** Sorting by insertion, stable sorting by a small priority, and filtering. */
module StableSorting {
  /** Insertion keeps entries that neither goes before in their order. */
  function Insert<T>(item: T, sorted: seq<T>, before: (T, T) -> bool): seq<T> {
    if sorted == [] then [item]
    else if before(item, sorted[|sorted| - 1]) then
      Insert(item, sorted[..|sorted| - 1], before) + [sorted[|sorted| - 1]]
    else sorted + [item]
  }

  function SortBy<T>(items: seq<T>, before: (T, T) -> bool): seq<T> {
    if items == [] then []
    else Insert(items[|items| - 1], SortBy(items[..|items| - 1], before), before)
  }

  function ByPriority<T>(priority: T -> nat): (T, T) -> bool {
    (a, b) => priority(a) < priority(b)
  }

  function StableSort<T>(items: seq<T>, priority: T -> nat): seq<T> {
    SortBy(items, ByPriority(priority))
  }

  function Filter<T>(items: seq<T>, test: T -> bool): seq<T> {
    if items == [] then []
    else Filter(items[..|items| - 1], test) + (if test(items[|items| - 1]) then [items[|items| - 1]] else [])
  }

  ghost predicate Sorted<T>(items: seq<T>, priority: T -> nat) {
    forall i, j :: 0 <= i < j < |items| ==> priority(items[i]) <= priority(items[j])
  }

  lemma {:induction false} InsertAdds<T>(item: T, sorted: seq<T>, before: (T, T) -> bool)
    ensures multiset(Insert(item, sorted, before)) == multiset(sorted) + multiset{item}
  {
    if sorted != [] && before(item, sorted[|sorted| - 1]) {
      assert sorted == sorted[..|sorted| - 1] + [sorted[|sorted| - 1]];
      InsertAdds(item, sorted[..|sorted| - 1], before);
    }
  }

  /** Sorting loses and adds nothing. */
  lemma {:induction false} SortAdds<T>(items: seq<T>, before: (T, T) -> bool)
    ensures multiset(SortBy(items, before)) == multiset(items)
  {
    if items != [] {
      assert items == items[..|items| - 1] + [items[|items| - 1]];
      SortAdds(items[..|items| - 1], before);
      InsertAdds(items[|items| - 1], SortBy(items[..|items| - 1], before), before);
    }
  }

  lemma {:induction false} InsertSorts<T>(item: T, sorted: seq<T>, priority: T -> nat)
    requires Sorted(sorted, priority)
    ensures Sorted(Insert(item, sorted, ByPriority(priority)), priority)
  {
    if sorted != [] && priority(item) < priority(sorted[|sorted| - 1]) {
      var front, last := sorted[..|sorted| - 1], sorted[|sorted| - 1];
      assert sorted == front + [last];
      InsertSorts(item, front, priority);
      InsertAdds(item, front, ByPriority(priority));
      AppendSorts(Insert(item, front, ByPriority(priority)), item, front, last, priority);
    }
  }

  lemma AppendSorts<T>(inserted: seq<T>, item: T, front: seq<T>, last: T, priority: T -> nat)
    requires Sorted(inserted, priority) && Sorted(front + [last], priority)
    requires multiset(inserted) == multiset(front) + multiset{item}
    requires priority(item) < priority(last)
    ensures Sorted(inserted + [last], priority)
  {
    forall i | 0 <= i < |inserted|
      ensures priority(inserted[i]) <= priority(last)
    {
      assert inserted[i] in multiset(inserted);
      if inserted[i] != item {
        assert inserted[i] in front;
        var j :| 0 <= j < |front| && front[j] == inserted[i];
        assert (front + [last])[j] == front[j] && (front + [last])[|front|] == last;
      }
    }
  }

  lemma {:induction false} StableSortSorts<T>(items: seq<T>, priority: T -> nat)
    ensures multiset(StableSort(items, priority)) == multiset(items)
    ensures Sorted(StableSort(items, priority), priority)
  {
    SortAdds(items, ByPriority(priority));
    if items != [] {
      StableSortSorts(items[..|items| - 1], priority);
      InsertSorts(items[|items| - 1], StableSort(items[..|items| - 1], priority), priority);
    }
  }

  /** The items of one priority, in order. */
  ghost function OfPriority<T>(items: seq<T>, priority: T -> nat, level: nat): seq<T> {
    if items == [] then []
    else OfPriority(items[..|items| - 1], priority, level)
         + (if priority(items[|items| - 1]) == level then [items[|items| - 1]] else [])
  }

  lemma {:induction false} OfPriorityAppends<T>(a: seq<T>, b: seq<T>, priority: T -> nat, level: nat)
    ensures OfPriority(a + b, priority, level) == OfPriority(a, priority, level) + OfPriority(b, priority, level)
  {
    if b == [] {
      assert a + b == a;
    } else {
      assert (a + b)[..|a + b| - 1] == a + b[..|b| - 1];
      OfPriorityAppends(a, b[..|b| - 1], priority, level);
    }
  }

  lemma {:induction false} InsertIsStable<T>(item: T, sorted: seq<T>, priority: T -> nat, level: nat)
    requires Sorted(sorted, priority)
    ensures OfPriority(Insert(item, sorted, ByPriority(priority)), priority, level)
            == OfPriority(sorted, priority, level) + (if priority(item) == level then [item] else [])
  {
    if sorted != [] && priority(item) < priority(sorted[|sorted| - 1]) {
      var front, last := sorted[..|sorted| - 1], sorted[|sorted| - 1];
      InsertIsStable(item, front, priority, level);
      var inserted := Insert(item, front, ByPriority(priority));
      assert (inserted + [last])[..|inserted|] == inserted;
      if priority(item) == level {
        NoneAbove(front, priority, last, level);
      }
    } else {
      assert (sorted + [item])[..|sorted|] == sorted;
      if sorted == [] {
        assert [item][..0] == [];
      }
    }
  }

  lemma NoneAbove<T>(front: seq<T>, priority: T -> nat, last: T, level: nat)
    ensures priority(last) != level ==>
              OfPriority(front + [last], priority, level) == OfPriority(front, priority, level)
  {
    assert (front + [last])[..|front|] == front;
  }

  /** Sorting keeps the order among entries of equal priority. */
  lemma {:induction false} StableSortIsStable<T>(items: seq<T>, priority: T -> nat, level: nat)
    ensures OfPriority(StableSort(items, priority), priority, level) == OfPriority(items, priority, level)
  {
    if items != [] {
      var front := items[..|items| - 1];
      StableSortIsStable(front, priority, level);
      StableSortSorts(front, priority);
      InsertIsStable(items[|items| - 1], StableSort(front, priority), priority, level);
    }
  }

  lemma {:induction false} FilterKeeps<T>(items: seq<T>, test: T -> bool)
    ensures forall x :: x in Filter(items, test) <==> x in items && test(x)
    ensures |Filter(items, test)| == |items| <==> forall x <- items :: test(x)
    ensures |Filter(items, test)| <= |items|
  {
    if items != [] {
      var front, last := items[..|items| - 1], items[|items| - 1];
      assert items == front + [last];
      FilterKeeps(front, test);
    }
  }

  /** Sorting what is in order changes nothing. */
  lemma {:induction false} StableSortKeepsSorted<T>(items: seq<T>, priority: T -> nat)
    requires Sorted(items, priority)
    ensures StableSort(items, priority) == items
  {
    if items != [] {
      StableSortKeepsSorted(items[..|items| - 1], priority);
    }
  }

  ghost predicate Pairwise<T(!new)>(items: seq<T>, before: (T, T) -> bool) {
    forall i, j :: 0 <= i < j < |items| ==> before(items[i], items[j])
  }

  ghost predicate PairwiseAlike<T(!new)>(items: seq<T>, priority: T -> nat, before: (T, T) -> bool) {
    forall i, j :: 0 <= i < j < |items| && priority(items[i]) == priority(items[j]) ==> before(items[i], items[j])
  }

  lemma {:induction false} InsertKeepsOrder<T(!new)>(
    item: T, sorted: seq<T>, priority: T -> nat, before: (T, T) -> bool)
    requires Sorted(sorted, priority) && PairwiseAlike(sorted, priority, before)
    requires forall other <- sorted :: before(other, item)
    ensures PairwiseAlike(Insert(item, sorted, ByPriority(priority)), priority, before)
  {
    if sorted != [] && priority(item) < priority(sorted[|sorted| - 1]) {
      var front, last := sorted[..|sorted| - 1], sorted[|sorted| - 1];
      assert sorted == front + [last];
      InsertKeepsOrder(item, front, priority, before);
      InsertAdds(item, front, ByPriority(priority));
      var inserted := Insert(item, front, ByPriority(priority));
      hide Insert;
      forall i | 0 <= i < |inserted| && priority(inserted[i]) == priority(last)
        ensures before(inserted[i], last)
      {
        assert inserted[i] in multiset(inserted);
        assert inserted[i] in front;
        var k :| 0 <= k < |front| && front[k] == inserted[i];
        assert sorted[k] == inserted[i];
      }
    }
  }

  /** Whatever holds between earlier and later items still holds between earlier and later ones of one priority. */
  lemma {:induction false} StableSortKeepsOrder<T(!new)>(items: seq<T>, priority: T -> nat, before: (T, T) -> bool)
    requires Pairwise(items, before)
    ensures PairwiseAlike(StableSort(items, priority), priority, before)
  {
    if items != [] {
      var front, last := items[..|items| - 1], items[|items| - 1];
      assert items == front + [last];
      StableSortKeepsOrder(front, priority, before);
      StableSortSorts(front, priority);
      forall other <- StableSort(front, priority)
        ensures before(other, last)
      {
        assert other in multiset(StableSort(front, priority));
        var k :| 0 <= k < |front| && front[k] == other;
        assert items[k] == other;
      }
      InsertKeepsOrder(last, StableSort(front, priority), priority, before);
    }
  }

  /** The kept items are those at these places, in order, and the places are exactly those of items that pass. */
  ghost predicate Picks<T(!new)>(items: seq<T>, test: T -> bool, kept: seq<T>, at: seq<nat>) {
    && |at| == |kept|
    && (forall k :: 0 <= k < |at| ==> at[k] < |items| && kept[k] == items[at[k]] && test(kept[k]))
    && (forall j, k :: 0 <= j < k < |at| ==> at[j] < at[k])
    && (forall i: nat :: i < |items| && test(items[i]) ==> i in at)
  }

  /** Filtering keeps exactly the items that pass, as often as they occur and in their order. */
  lemma {:induction false} FilterPicks<T(!new)>(items: seq<T>, test: T -> bool) returns (at: seq<nat>)
    ensures Picks(items, test, Filter(items, test), at)
  {
    if items == [] {
      at := [];
    } else {
      var n := |items| - 1;
      var before := FilterPicks(items[..n], test);
      assert items[..n] + [items[n]] == items;
      if test(items[n]) {
        at := before + [n];
        PicksOneMore(items[..n], items[n], test, Filter(items[..n], test), before);
      } else {
        at := before;
        PicksNoMore(items[..n], items[n], test, Filter(items[..n], test), before);
        assert Filter(items[..n], test) + [] == Filter(items[..n], test);
      }
    }
  }

  lemma PicksOneMore<T(!new)>(items: seq<T>, last: T, test: T -> bool, kept: seq<T>, at: seq<nat>)
    requires Picks(items, test, kept, at) && test(last)
    ensures Picks(items + [last], test, kept + [last], at + [|items|])
  {
    var places := at + [|items|];
    assert places[|at|] == |items|;
    forall i: nat | i < |items| && test(items[i])
      ensures i in places
    {
      assert i in at;
    }
  }

  lemma PicksNoMore<T(!new)>(items: seq<T>, last: T, test: T -> bool, kept: seq<T>, at: seq<nat>)
    requires Picks(items, test, kept, at) && !test(last)
    ensures Picks(items + [last], test, kept, at)
  {
    forall i: nat | i < |items + [last]| && test((items + [last])[i])
      ensures i in at
    {
      assert i < |items| && (items + [last])[i] == items[i];
    }
  }
}
