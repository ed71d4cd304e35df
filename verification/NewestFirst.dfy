/** Lists in order of time, newest first, then of title, then of name. */
module NewestFirst {
  import opened StableSorting
  import opened Collections

  datatype Stamp = Stamp(at: int, title: string, name: string)

  /** The order of strings. */
  predicate Below(a: string, b: string) {
    b != [] && (a == [] || a[0] < b[0] || (a[0] == b[0] && Below(a[1..], b[1..])))
  }

  predicate Before(a: Stamp, b: Stamp) {
    || a.at > b.at
    || (a.at == b.at && (Below(a.title, b.title) || (a.title == b.title && Below(a.name, b.name))))
  }

  lemma {:induction false} BelowIsOrder(a: string, b: string, c: string)
    ensures !Below(a, a)
    ensures Below(a, b) && Below(b, c) ==> Below(a, c)
    ensures a != b ==> Below(a, b) || Below(b, a)
    decreases |a|
  {
    if a != [] {
      BelowIsOrder(a[1..], if b == [] then [] else b[1..], if c == [] then [] else c[1..]);
      if b != [] && a[0] == b[0] && a[1..] == b[1..] {
        assert a == [a[0]] + a[1..] && b == [b[0]] + b[1..];
      }
    }
  }

  /** One string is below another exactly if it is smaller at the first place where they differ, or is a proper
      beginning of it. */
  lemma {:induction false} BelowByFirstDifference(a: string, b: string)
    ensures Below(a, b) <==>
              exists k :: 0 <= k <= |a| && k < |b| && a[..k] == b[..k] && (k == |a| || a[k] < b[k])
  {
    if a != [] && b != [] && a[0] == b[0] {
      BelowByFirstDifference(a[1..], b[1..]);
      if k :| 0 <= k <= |a[1..]| && k < |b[1..]| && a[1..][..k] == b[1..][..k] && (k == |a[1..]| || a[1..][k] < b[1..][k]) {
        assert a[..k + 1] == [a[0]] + a[1..][..k] && b[..k + 1] == [b[0]] + b[1..][..k];
      }
      if k :| 0 <= k <= |a| && k < |b| && a[..k] == b[..k] && (k == |a| || a[k] < b[k]) {
        assert k > 0;
        assert a[1..][..k - 1] == a[..k][1..] && b[1..][..k - 1] == b[..k][1..];
      }
    } else if b != [] {
      assert a[..0] == b[..0];
      forall k | 0 < k <= |a| && k < |b|
        ensures a[..k] == b[..k] ==> a[0] == b[0]
      {
        assert a[..k][0] == a[0] && b[..k][0] == b[0];
      }
    }
  }

  /** What is newer comes first, and among what is of one time the title decides and then the name. */
  lemma NewerComesFirst(a: Stamp, b: Stamp)
    ensures a.at > b.at ==> Before(a, b) && !Before(b, a)
    ensures a.at == b.at && a.title != b.title ==> (Before(a, b) <==> Below(a.title, b.title))
    ensures a.at == b.at && a.title == b.title ==> (Before(a, b) <==> Below(a.name, b.name))
  {
    BelowIsOrder(a.title, a.title, a.title);
  }

  lemma BeforeIsOrder(a: Stamp, b: Stamp, c: Stamp)
    ensures !Before(a, a)
    ensures Before(a, b) && Before(b, c) ==> Before(a, c)
    ensures a != b ==> Before(a, b) || Before(b, a)
    ensures !(Before(a, b) && Before(b, a))
  {
    BelowIsOrder(a.title, b.title, c.title);
    BelowIsOrder(a.title, b.title, a.title);
    BelowIsOrder(a.name, b.name, c.name);
    BelowIsOrder(a.name, b.name, a.name);
  }

  ghost predicate InOrder<T>(items: seq<T>, stamp: T -> Stamp) {
    forall i, j :: 0 <= i < j < |items| ==> Before(stamp(items[i]), stamp(items[j]))
  }

  ghost predicate DistinctStamps<T>(items: seq<T>, stamp: T -> Stamp) {
    forall i, j :: 0 <= i < j < |items| ==> stamp(items[i]) != stamp(items[j])
  }

  function Earlier<T>(stamp: T -> Stamp): (T, T) -> bool {
    (a, b) => Before(stamp(a), stamp(b))
  }

  function Sort<T>(items: seq<T>, stamp: T -> Stamp): seq<T> {
    SortBy(items, Earlier(stamp))
  }

  lemma {:induction false} InsertSorts<T>(item: T, sorted: seq<T>, stamp: T -> Stamp)
    requires InOrder(sorted, stamp)
    requires forall other <- sorted :: stamp(other) != stamp(item)
    ensures InOrder(Insert(item, sorted, Earlier(stamp)), stamp)
  {
    hide Before;
    if sorted != [] {
      var front, last := sorted[..|sorted| - 1], sorted[|sorted| - 1];
      assert sorted == front + [last];
      if Before(stamp(item), stamp(last)) {
        InsertSorts(item, front, stamp);
        InsertAdds(item, front, Earlier(stamp));
        forall other | other in Insert(item, front, Earlier(stamp))
          ensures Before(stamp(other), stamp(last))
        {
          assert other in multiset(Insert(item, front, Earlier(stamp)));
          if other != item {
            assert other in front;
            var j :| 0 <= j < |front| && front[j] == other;
            assert sorted[j] == other;
          }
        }
      } else {
        forall j | 0 <= j < |sorted|
          ensures Before(stamp(sorted[j]), stamp(item))
        {
          BeforeIsOrder(stamp(last), stamp(item), stamp(item));
          BeforeIsOrder(stamp(sorted[j]), stamp(last), stamp(item));
        }
      }
    }
  }

  lemma {:induction false} SortSorts<T>(items: seq<T>, stamp: T -> Stamp)
    ensures multiset(Sort(items, stamp)) == multiset(items)
    ensures DistinctStamps(items, stamp) ==> InOrder(Sort(items, stamp), stamp)
  {
    SortAdds(items, Earlier(stamp));
    if items != [] {
      var front, last := items[..|items| - 1], items[|items| - 1];
      assert items == front + [last];
      SortSorts(front, stamp);
      if DistinctStamps(items, stamp) {
        forall other <- Sort(front, stamp)
          ensures stamp(other) != stamp(last)
        {
          assert other in multiset(Sort(front, stamp));
          assert other in front;
        }
        InsertSorts(last, Sort(front, stamp), stamp);
      }
    }
  }

  /** Two lists in order with the same entries are the same list: any way of sorting gives this one. */
  lemma {:induction false} OrderIsUnique<T>(a: seq<T>, b: seq<T>, stamp: T -> Stamp)
    requires InOrder(a, stamp) && InOrder(b, stamp)
    requires multiset(a) == multiset(b)
    ensures a == b
  {
    assert |multiset(a)| == |a| && |multiset(b)| == |b|;
    if a != [] {
      LastIsShared(a, b, stamp);
      FrontInOrder(a, stamp);
      FrontInOrder(b, stamp);
      FrontCounts(a);
      FrontCounts(b);
      hide *;
      OrderIsUnique(a[..|a| - 1], b[..|b| - 1], stamp);
    }
  }

  lemma FrontCounts<T>(items: seq<T>)
    requires items != []
    ensures items == items[..|items| - 1] + [items[|items| - 1]]
    ensures multiset(items[..|items| - 1]) == multiset(items) - multiset{items[|items| - 1]}
  {
    assert items == items[..|items| - 1] + [items[|items| - 1]];
  }

  lemma FrontInOrder<T>(items: seq<T>, stamp: T -> Stamp)
    requires items != [] && InOrder(items, stamp)
    ensures InOrder(items[..|items| - 1], stamp)
  {
    hide Before;
  }

  lemma LastIsShared<T>(a: seq<T>, b: seq<T>, stamp: T -> Stamp)
    requires a != [] && b != []
    requires InOrder(a, stamp) && InOrder(b, stamp)
    requires multiset(a) == multiset(b)
    ensures a[|a| - 1] == b[|b| - 1]
  {
    hide Before;
    var lastA, lastB := a[|a| - 1], b[|b| - 1];
    assert lastA in multiset(a) && lastB in multiset(b);
    var i :| 0 <= i < |b| && b[i] == lastA;
    var j :| 0 <= j < |a| && a[j] == lastB;
    BeforeIsOrder(stamp(lastA), stamp(lastB), stamp(lastA));
  }

  lemma StampsTellApart<T>(items: seq<T>, stamp: T -> Stamp)
    requires DistinctStamps(items, stamp)
    ensures Distinct(items)
  {
  }

  lemma InOrderIsDistinct<T>(items: seq<T>, stamp: T -> Stamp)
    requires InOrder(items, stamp)
    ensures DistinctStamps(items, stamp)
  {
    hide Before;
    forall i, j | 0 <= i < j < |items|
      ensures stamp(items[i]) != stamp(items[j])
    {
      BeforeIsOrder(stamp(items[i]), stamp(items[j]), stamp(items[i]));
    }
  }

  lemma SameEntries<T>(a: seq<T>, b: seq<T>, stamp: T -> Stamp)
    requires DistinctStamps(a, stamp) && DistinctStamps(b, stamp)
    requires forall item :: item in a <==> item in b
    ensures multiset(a) == multiset(b)
  {
    hide DistinctStamps;
    forall item
      ensures multiset(a)[item] == multiset(b)[item]
    {
      StampsTellApart(a, stamp);
      OneOfEach(a, item);
      StampsTellApart(b, stamp);
      OneOfEach(b, item);
    }
  }

  lemma StampsTransfer<T>(a: seq<T>, b: seq<T>, stamp: T -> Stamp)
    requires multiset(a) == multiset(b) && DistinctStamps(a, stamp)
    ensures DistinctStamps(b, stamp)
  {
    forall i, j | 0 <= i < j < |b|
      ensures stamp(b[i]) != stamp(b[j])
    {
      StampsTellApart(a, stamp);
      OneOfEach(a, b[i]);
      assert b == b[..j] + b[j..];
      assert b[i] in b[..j] by { assert b[..j][i] == b[i]; }
      assert multiset(b)[b[i]] == multiset(b[..j])[b[i]] + multiset(b[j..])[b[i]];
      assert b[i] in multiset(b) && b[j] in multiset(b);
      assert b[i] in a && b[j] in a;
    }
  }
}
