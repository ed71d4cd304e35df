/** Picking, merging, filtering and ordering do what their names say. */
module WorkflowHelpers {
  import opened StableSorting
  import opened WorkflowModel

  // ----- picking -----

  ghost predicate NoRepeats(actions: seq<Action>) {
    forall i, j :: 0 <= i < j < |actions| ==> Identity(actions[i]) != Identity(actions[j])
  }

  ghost predicate ChosenFrom(chosen: seq<Action>, actions: seq<Action>, test: Action -> bool) {
    forall action <- chosen :: action in actions && test(action)
  }

  ghost predicate Covers(chosen: seq<Action>, actions: seq<Action>, test: Action -> bool) {
    forall action <- actions :: test(action) ==> Contains(chosen, action)
  }

  lemma {:induction false} PickIsSound(actions: seq<Action>, test: Action -> bool, limit: nat)
    ensures |Pick(actions, test, limit)| <= limit
    ensures ChosenFrom(Pick(actions, test, limit), actions, test)
    ensures NoRepeats(Pick(actions, test, limit))
  {
    if actions != [] {
      var front, last := actions[..|actions| - 1], actions[|actions| - 1];
      assert actions == front + [last];
      PickIsSound(front, test, limit);
      hide Identity;
    }
  }

  lemma {:induction false} PickCovers(actions: seq<Action>, test: Action -> bool, limit: nat)
    requires |Pick(actions, test, limit)| < limit
    ensures Covers(Pick(actions, test, limit), actions, test)
  {
    if actions != [] {
      var front, last := actions[..|actions| - 1], actions[|actions| - 1];
      assert actions == front + [last];
      PickCovers(front, test, limit);
      var before, chosen := Pick(front, test, limit), Pick(actions, test, limit);
      ContainsMore(before, last);
      assert chosen == before || chosen == before + [last];
      hide Pick, Identity;
    }
  }

  /** The chosen actions pass the test, come from the given ones and repeat nothing; and unless the limit is
      reached, nothing that passes the test is left out but repetitions. */
  lemma PickChooses(actions: seq<Action>, test: Action -> bool, limit: nat)
    ensures var chosen := Pick(actions, test, limit);
            && |chosen| <= limit
            && (forall action <- chosen :: action in actions && test(action))
            && NoRepeats(chosen)
            && (|chosen| < limit ==> forall action <- actions :: test(action) ==> Contains(chosen, action))
  {
    PickIsSound(actions, test, limit);
    if |Pick(actions, test, limit)| < limit {
      PickCovers(actions, test, limit);
    }
    hide Pick, NoRepeats, Contains;
  }

  /** The chosen actions are those at these places, in order; each passes, none repeats another, and one that passes
      is left out only as the repetition of one chosen before it or because it comes after all, which then are as
      many as the limit allows. This leaves one choice. */
  ghost predicate FirstFew(
    actions: seq<Action>, test: Action -> bool, limit: nat, chosen: seq<Action>, at: seq<nat>)
  {
    && |at| == |chosen| <= limit
    && (forall k :: 0 <= k < |at| ==> at[k] < |actions| && chosen[k] == actions[at[k]] && test(chosen[k]))
    && (forall j, k :: 0 <= j < k < |at| ==> at[j] < at[k])
    && NoRepeats(chosen)
    && (forall i: nat :: i < |actions| && test(actions[i]) && i !in at ==> Excused(actions[i], i, limit, chosen, at))
  }

  ghost predicate Excused(action: Action, i: nat, limit: nat, chosen: seq<Action>, at: seq<nat>)
    requires |at| == |chosen|
  {
    || (exists k :: 0 <= k < |at| && at[k] < i && Identity(chosen[k]) == Identity(action))
    || (|chosen| == limit && forall k :: 0 <= k < |at| ==> at[k] < i)
  }

  lemma {:induction false} PickIsFirstFew(actions: seq<Action>, test: Action -> bool, limit: nat) returns (at: seq<nat>)
    ensures FirstFew(actions, test, limit, Pick(actions, test, limit), at)
  {
    PickIsSound(actions, test, limit);
    if actions == [] {
      at := [];
    } else {
      var n := |actions| - 1;
      var before, chosen := Pick(actions[..n], test, limit), Pick(actions, test, limit);
      var earlier := PickIsFirstFew(actions[..n], test, limit);
      if chosen == before {
        at := earlier;
        FirstFewAgain(actions, test, limit, before, at);
      } else {
        assert chosen == before + [actions[n]] && test(actions[n]) && |before| < limit;
        at := earlier + [n];
        hide Pick, FirstFew;
        FirstFewAndLast(actions, test, limit, before, earlier);
      }
    }
  }

  lemma FirstFewAgain(actions: seq<Action>, test: Action -> bool, limit: nat, chosen: seq<Action>, at: seq<nat>)
    requires actions != [] && FirstFew(actions[..|actions| - 1], test, limit, chosen, at)
    requires chosen == Pick(actions[..|actions| - 1], test, limit) == Pick(actions, test, limit)
    ensures FirstFew(actions, test, limit, chosen, at)
  {
    hide Pick, NoRepeats, Identity, Excused;
    var n := |actions| - 1;
    forall i: nat | i < |actions| && test(actions[i]) && i !in at
      ensures Excused(actions[i], i, limit, chosen, at)
    {
      if i < n {
        assert Excused(actions[..n][i], i, limit, chosen, at);
      } else {
        LastIsExcused(actions, test, limit, chosen, at);
      }
    }
  }

  lemma FirstFewAndLast(actions: seq<Action>, test: Action -> bool, limit: nat, before: seq<Action>, earlier: seq<nat>)
    requires actions != [] && FirstFew(actions[..|actions| - 1], test, limit, before, earlier) && |before| < limit
    requires test(actions[|actions| - 1]) && NoRepeats(before + [actions[|actions| - 1]])
    ensures FirstFew(actions, test, limit, before + [actions[|actions| - 1]], earlier + [|actions| - 1])
  {
    hide NoRepeats, Identity, Excused;
    var n := |actions| - 1;
    var chosen, at := before + [actions[n]], earlier + [n];
    forall i: nat | i < |actions| && test(actions[i]) && i !in at
      ensures Excused(actions[i], i, limit, chosen, at)
    {
      assert i != n by { assert at[|earlier|] == n; }
      assert i !in earlier;
      ExcusedStill(actions[i], i, limit, before, earlier, actions[n], n);
    }
  }

  /** The last action is left out only as a repetition or because the limit is reached. */
  lemma LastIsExcused(actions: seq<Action>, test: Action -> bool, limit: nat, before: seq<Action>, at: seq<nat>)
    requires actions != [] && test(actions[|actions| - 1])
    requires before == Pick(actions[..|actions| - 1], test, limit) == Pick(actions, test, limit)
    requires |at| == |before| <= limit
    requires forall k :: 0 <= k < |at| ==> at[k] < |actions| - 1
    ensures Excused(actions[|actions| - 1], |actions| - 1, limit, before, at)
  {
    var last := actions[|actions| - 1];
    if |before| < limit {
      assert Contains(before, last);
      var other :| other in before && Identity(other) == Identity(last);
      var k :| 0 <= k < |before| && before[k] == other;
    }
  }

  lemma ExcusedStill(action: Action, i: nat, limit: nat, before: seq<Action>, earlier: seq<nat>, more: Action, n: nat)
    requires i < n && |earlier| == |before| < limit && Excused(action, i, limit, before, earlier)
    ensures Excused(action, i, limit, before + [more], earlier + [n])
  {
    hide Identity;
    var k :| 0 <= k < |earlier| && earlier[k] < i && Identity(before[k]) == Identity(action);
    assert (before + [more])[k] == before[k] && (earlier + [n])[k] == earlier[k];
  }

  lemma ExcusedBefore(action: Action, i: nat, limit: nat, chosen: seq<Action>, at: seq<nat>, m: nat)
    requires |at| == |chosen| == m + 1 && i < at[m] && Excused(action, i, limit, chosen, at)
    ensures Excused(action, i, limit, chosen[..m], at[..m])
  {
    hide Identity;
    var k :| 0 <= k < |at| && at[k] < i && Identity(chosen[k]) == Identity(action);
    assert k < m && at[..m][k] == at[k] && chosen[..m][k] == chosen[k];
  }

  /** There is one such choice. */
  lemma {:induction false} FirstFewIsPick(
    actions: seq<Action>, test: Action -> bool, limit: nat, chosen: seq<Action>, at: seq<nat>)
    requires FirstFew(actions, test, limit, chosen, at)
    ensures chosen == Pick(actions, test, limit)
  {
    hide FirstFew, Pick;
    if actions == [] {
      NothingChosen(test, limit, chosen, at);
    } else {
      var n, m := |actions| - 1, |at| - 1;
      var front := actions[..n];
      PlacesMatchChosen(actions, test, limit, chosen, at);
      if m >= 0 && at[m] == n {
        FirstFewBefore(actions, test, limit, chosen, at);
        FirstFewIsPick(front, test, limit, chosen[..m], at[..m]);
        PickTakesLast(actions, test, limit, chosen, at);
      } else {
        FirstFewWithout(actions, test, limit, chosen, at);
        FirstFewIsPick(front, test, limit, chosen, at);
        PickLeavesLast(actions, test, limit, chosen, at);
      }
    }
  }

  lemma NothingChosen(test: Action -> bool, limit: nat, chosen: seq<Action>, at: seq<nat>)
    requires FirstFew([], test, limit, chosen, at)
    ensures chosen == Pick([], test, limit) == []
  {
    NoPlaces(at, 0);
  }

  lemma NoPlaces(at: seq<nat>, n: nat)
    requires forall k :: 0 <= k < |at| ==> at[k] < n
    ensures n == 0 ==> at == []
  {
    assert at == [] || at[0] < n;
  }

  lemma PlacesMatchChosen(actions: seq<Action>, test: Action -> bool, limit: nat, chosen: seq<Action>, at: seq<nat>)
    requires FirstFew(actions, test, limit, chosen, at)
    ensures |at| == |chosen|
  {
  }

  lemma PickTakesLast(actions: seq<Action>, test: Action -> bool, limit: nat, chosen: seq<Action>, at: seq<nat>)
    requires FirstFew(actions, test, limit, chosen, at) && at != [] && at[|at| - 1] == |actions| - 1
    requires chosen[..|at| - 1] == Pick(actions[..|actions| - 1], test, limit)
    ensures chosen == Pick(actions, test, limit)
  {
    hide Identity, Excused;
    var m, last := |at| - 1, actions[|actions| - 1];
    assert chosen == chosen[..m] + [last];
    forall other <- chosen[..m]
      ensures Identity(other) != Identity(last)
    {
      var k :| 0 <= k < m && chosen[k] == other;
    }
    assert !Contains(chosen[..m], last);
  }

  lemma PickLeavesLast(actions: seq<Action>, test: Action -> bool, limit: nat, chosen: seq<Action>, at: seq<nat>)
    requires FirstFew(actions, test, limit, chosen, at) && actions != [] && |actions| - 1 !in at
    requires chosen == Pick(actions[..|actions| - 1], test, limit)
    ensures chosen == Pick(actions, test, limit)
  {
    hide Identity;
    var n := |actions| - 1;
    if test(actions[n]) && |chosen| < limit {
      assert Excused(actions[n], n, limit, chosen, at);
      assert Contains(chosen, actions[n]);
    }
  }

  lemma FirstFewBefore(actions: seq<Action>, test: Action -> bool, limit: nat, chosen: seq<Action>, at: seq<nat>)
    requires FirstFew(actions, test, limit, chosen, at) && at != [] && at[|at| - 1] == |actions| - 1
    ensures FirstFew(actions[..|actions| - 1], test, limit, chosen[..|at| - 1], at[..|at| - 1])
  {
    hide NoRepeats, Excused;
    var front, m := actions[..|actions| - 1], |at| - 1;
    FewerRepeatNothing(chosen, m);
    forall i: nat | i < |front| && test(front[i]) && i !in at[..m]
      ensures Excused(front[i], i, limit, chosen[..m], at[..m])
    {
      assert at == at[..m] + [at[m]];
      assert i !in at;
      ExcusedBefore(actions[i], i, limit, chosen, at, m);
    }
  }

  lemma FewerRepeatNothing(chosen: seq<Action>, m: nat)
    requires NoRepeats(chosen) && m <= |chosen|
    ensures NoRepeats(chosen[..m])
  {
    hide Identity;
  }

  lemma FirstFewWithout(actions: seq<Action>, test: Action -> bool, limit: nat, chosen: seq<Action>, at: seq<nat>)
    requires FirstFew(actions, test, limit, chosen, at) && actions != []
    requires at == [] || at[|at| - 1] != |actions| - 1
    ensures FirstFew(actions[..|actions| - 1], test, limit, chosen, at)
    ensures |actions| - 1 !in at
  {
    hide NoRepeats, Excused;
    var front := actions[..|actions| - 1];
    assert forall k :: 0 <= k < |at| ==> at[k] < |front|;
    forall i: nat | i < |front| && test(front[i]) && i !in at
      ensures Excused(front[i], i, limit, chosen, at)
    {
      assert Excused(actions[i], i, limit, chosen, at);
    }
  }

  /** Once the limit is reached nothing more is chosen. */
  lemma {:induction false} PickIsFull(actions: seq<Action>, test: Action -> bool, limit: nat, k: nat)
    requires k <= |actions|
    requires |Pick(actions[..k], test, limit)| >= limit
    ensures Pick(actions, test, limit) == Pick(actions[..k], test, limit)
    decreases |actions|
  {
    if k < |actions| {
      var front := actions[..|actions| - 1];
      assert front[..k] == actions[..k];
      PickIsFull(front, test, limit, k);
    } else {
      assert actions[..k] == actions;
    }
  }

  method PickActions(actions: seq<Action>, test: Action -> bool, limit: nat) returns (chosen: seq<Action>)
    requires limit > 0
    ensures chosen == Pick(actions, test, limit)
  {
    var seen: set<(Key, string)> := {};
    chosen := [];
    for k := 0 to |actions|
      invariant chosen == Pick(actions[..k], test, limit)
      invariant |chosen| < limit
      invariant forall action :: Identity(action) in seen <==> Contains(chosen, action)
    {
      var action := actions[k];
      assert actions[..k + 1][..k] == actions[..k];
      if Identity(action) !in seen && test(action) {
        ghost var before := chosen;
        seen := seen + {Identity(action)};
        chosen := chosen + [action];
        ContainsMore(before, action);
        if |chosen| >= limit {
          PickIsFull(actions, test, limit, k + 1);
          return;
        }
      }
    }
    assert actions[..|actions|] == actions;
  }

  lemma ContainsMore(chosen: seq<Action>, more: Action)
    ensures forall action ::
              Contains(chosen + [more], action) <==> Contains(chosen, action) || Identity(action) == Identity(more)
  {
    forall action
      ensures Contains(chosen + [more], action) <==> Contains(chosen, action) || Identity(action) == Identity(more)
    {
      if Contains(chosen, action) {
        var other :| other in chosen && Identity(other) == Identity(action);
        assert other in chosen + [more];
      }
      assert more in chosen + [more];
    }
  }

  /** Server and rendered actions in one list, without repetitions, and none lost. */
  lemma MergeKeepsAll(first: seq<Action>, second: seq<Action>)
    ensures NoRepeats(Merge(first, second))
    ensures forall action :: (action in first || action in second) ==> Contains(Merge(first, second), action)
    ensures forall action <- Merge(first, second) :: action in first || action in second
  {
    var all, limit := first + second, |first| + |second|;
    PickIsSound(all, Any, limit);
    if |Merge(first, second)| < limit {
      PickCovers(all, Any, limit);
    } else {
      PickEverything(all, Any, limit);
    }
    hide Pick, NoRepeats, Contains;
    assert Covers(Merge(first, second), all, Any);
    assert forall action <- all :: Any(action);
  }

  function Flatten(groups: seq<seq<Action>>): seq<Action> {
    if groups == [] then [] else Flatten(groups[..|groups| - 1]) + groups[|groups| - 1]
  }

  lemma PickOneMore(actions: seq<Action>, action: Action, limit: nat)
    requires |actions| < limit
    ensures Pick(actions + [action], Any, limit)
            == Pick(actions, Any, limit) + (if Contains(Pick(actions, Any, limit), action) then [] else [action])
  {
    assert (actions + [action])[..|actions|] == actions;
    PickShort(actions, Any, limit);
  }

  /** Add what is new in one more group. */
  method MergeGroup(before: seq<Action>, group: seq<Action>, merged: seq<Action>, seen: set<(Key, string)>, ghost limit: nat)
    returns (more: seq<Action>, known: set<(Key, string)>)
    requires |before| + |group| <= limit
    requires merged == Pick(before, Any, limit)
    requires forall action :: Identity(action) in seen <==> Contains(merged, action)
    ensures more == Pick(before + group, Any, limit)
    ensures forall action :: Identity(action) in known <==> Contains(more, action)
  {
    hide Contains, Pick;
    more, known := merged, seen;
    assert before + group[..0] == before;
    for k := 0 to |group|
      invariant more == Pick(before + group[..k], Any, limit)
      invariant forall action :: Identity(action) in known <==> Contains(more, action)
    {
      var action := group[k];
      assert before + group[..k + 1] == before + group[..k] + [action];
      PickOneMore(before + group[..k], action, limit);
      if Identity(action) !in known {
        ContainsMore(more, action);
        known := known + {Identity(action)};
        more := more + [action];
      } else {
        assert more + [] == more;
      }
    }
    assert group[..|group|] == group;
  }

  /** The loop over the groups of actions. */
  method MergeActions(groups: seq<seq<Action>>) returns (merged: seq<Action>)
    ensures merged == Pick(Flatten(groups), Any, |Flatten(groups)|)
  {
    merged := [];
    var seen: set<(Key, string)> := {};
    for g := 0 to |groups|
      invariant merged == Pick(Flatten(groups[..g]), Any, |Flatten(groups)|)
      invariant forall action :: Identity(action) in seen <==> Contains(merged, action)
    {
      hide Contains;
      assert groups[..g + 1][..g] == groups[..g];
      FlattenPart(groups, g);
      merged, seen := MergeGroup(Flatten(groups[..g]), groups[g], merged, seen, |Flatten(groups)|);
    }
    assert groups[..|groups|] == groups;
  }

  /** Two groups merge as a visit merges the server's and the rendered actions. */
  lemma MergeTwo(first: seq<Action>, second: seq<Action>)
    ensures Pick(Flatten([first, second]), Any, |Flatten([first, second])|) == Merge(first, second)
  {
    assert [first, second][..1] == [first] && [first][..0] == [];
    assert Flatten([first]) == [] + first;
    assert Flatten([first, second]) == first + second;
  }

  lemma {:induction false} FlattenPart(groups: seq<seq<Action>>, g: nat)
    requires g < |groups|
    ensures |Flatten(groups[..g])| + |groups[g]| <= |Flatten(groups)|
    decreases |groups|
  {
    if g < |groups| - 1 {
      var front := groups[..|groups| - 1];
      assert front[..g] == groups[..g];
      FlattenPart(front, g);
    }
  }

  lemma {:induction false} PickEverything(actions: seq<Action>, test: Action -> bool, limit: nat)
    requires |Pick(actions, test, limit)| >= |actions|
    ensures Pick(actions, test, limit) == actions
  {
    if actions != [] {
      PickShort(actions[..|actions| - 1], test, limit);
      PickEverything(actions[..|actions| - 1], test, limit);
    }
  }

  lemma {:induction false} PickShort(actions: seq<Action>, test: Action -> bool, limit: nat)
    ensures |Pick(actions, test, limit)| <= |actions|
  {
    if actions != [] {
      PickShort(actions[..|actions| - 1], test, limit);
    }
  }

  /** The overall status says success exactly if some result is one, and blocked exactly if there are results
      and all of them are blocked. */
  lemma OverallMeans(results: seq<Result>)
    ensures Overall(results) == Success <==> exists r <- results :: r.status == Success
    ensures Overall(results) == Blocked <==> results != [] && forall r <- results :: r.status == Blocked
  {
    FilterKeeps(results, (r: Result) => r.status == Blocked);
    if results != [] {
      assert results[0] in results;
    }
  }
}
