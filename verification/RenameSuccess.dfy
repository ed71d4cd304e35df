/** Exactly when a planned rename goes through, if nothing fails from outside. */
module RenameSuccess {
  import opened FileTree
  import opened RenamePlanning
  import opened RenameEffects
  import opened RenameOutcome

  /** An earlier move has taken the file that was at this path away. */
  ghost predicate Vacated(plan: Plan, q: Path, k: nat)
    requires k <= |plan.moves|
  {
    exists j :: 0 <= j < k && SourceOf(plan, plan.moves[j]) == q && plan.moves[j].to != q
  }

  ghost predicate Filled(plan: Plan, q: Path, k: nat)
    requires k <= |plan.moves|
  {
    exists j :: 0 <= j < k && plan.moves[j].to == q
  }

  /** After k moves a path is taken if one of them filled it, or it was taken and none of them vacated it. */
  lemma {:induction false} TakenAfter(t: Tree, plan: Plan, k: nat, q: Path)
    requires PlanReady(t, plan)
    requires k <= |plan.moves| && CanMoveAll(Started(t, plan), plan, k)
    ensures q in MovedAll(Started(t, plan), plan, k)
            <==> Filled(plan, q, k) || (q in Started(t, plan) && !Vacated(plan, q, k))
  {
    hide Relocate, WellFormed, Follow, CanRelocate, PlaceOf, Filled, Vacated, PlanReady;
    ReadyStarts(t, plan);
    if k == 0 {
      NothingYet(plan, q);
    } else {
      var before, move := MovedAll(Started(t, plan), plan, k - 1), plan.moves[k - 1];
      var source := SourceOf(plan, move);
      TakenAfter(t, plan, k - 1, q);
      OneMore(plan, q, k);
      AlwaysUnderway(t, plan, k - 1);
      if source != move.to {
        TakenAfterOne(before, source, move.to, q);
        AlwaysUnderway(t, plan, k);
        NotFilledTwice(t, plan, k, source);
      }
    }
  }

  lemma NothingYet(plan: Plan, q: Path)
    ensures !Filled(plan, q, 0) && !Vacated(plan, q, 0)
  {
  }

  lemma OneMore(plan: Plan, q: Path, k: nat)
    requires 0 < k <= |plan.moves|
    ensures var move := plan.moves[k - 1];
            && (Filled(plan, q, k) <==> Filled(plan, q, k - 1) || move.to == q)
            && (Vacated(plan, q, k) <==> Vacated(plan, q, k - 1) || (SourceOf(plan, move) == q && move.to != q))
  {
  }

  /** The file moved in step k was not put there by an earlier step. */
  lemma NotFilledTwice(t: Tree, plan: Plan, k: nat, source: Path)
    requires PlanReady(t, plan)
    requires 0 < k <= |plan.moves| && CanMoveAll(Started(t, plan), plan, k)
    requires source == SourceOf(plan, plan.moves[k - 1])
    ensures !Filled(plan, source, k - 1)
  {
    hide Relocate, WellFormed, Follow, CanRelocate, PlaceOf, PlanReady, CanMove;
    ReadyStarts(t, plan);
    AlwaysUnderway(t, plan, k - 1);
  }

  /** Moving one file to a free name vacates the old name, fills the new one and changes nothing else. */
  lemma TakenAfterOne(t: Tree, source: Path, to: Path, q: Path)
    requires CanRelocate(t, source, to)
    requires IsFile(t, source)
    ensures q in Relocate(t, source, to) <==> q == to || (q in t && q != source)
  {
    hide Relocate, Follow;
    var after := Relocate(t, source, to);
    RelocateMoves(t, source, to);
    RelocateWellFormed(t, source, to);
    NewName(source, to);
    if q in after && q != to {
      var p := Follow(q, to, source);
      assert p in t && Follow(p, source, to) == q;
      assert p != source;
      OthersStay(t, source, to, p);
    }
    if q in t && q != source {
      OthersStay(t, source, to, q);
    }
  }

  /** The destination of the i-th file is its own place, was free once the folder had moved, or is given up by
      an earlier move. */
  ghost predicate WayClear(t: Tree, plan: Plan, i: nat)
    requires CanStart(t, plan)
    requires i < |plan.moves|
  {
    var move := plan.moves[i];
    && (plan.MovesFolder() ==> plan.source <= move.from)
    && (SourceOf(plan, move) == move.to || move.to !in Started(t, plan) || Vacated(plan, move.to, i))
  }

  lemma {:induction false} ClearWayMoves(t: Tree, plan: Plan, k: nat)
    requires PlanReady(t, plan)
    requires k <= |plan.moves|
    ensures CanMoveAll(Started(t, plan), plan, k) <==> forall i :: 0 <= i < k ==> WayClear(t, plan, i)
  {
    hide PlanReady, WayClear, CanMove;
    ReadyStarts(t, plan);
    if k > 0 {
      ClearWayMoves(t, plan, k - 1);
      if CanMoveAll(Started(t, plan), plan, k - 1) {
        NextMove(t, plan, k - 1);
      }
      assert (forall i :: 0 <= i < k ==> WayClear(t, plan, i))
        <==> (forall i :: 0 <= i < k - 1 ==> WayClear(t, plan, i)) && WayClear(t, plan, k - 1);
    }
  }

  lemma NextMove(t: Tree, plan: Plan, k: nat)
    requires PlanReady(t, plan)
    requires k < |plan.moves| && CanMoveAll(Started(t, plan), plan, k)
    ensures CanMove(MovedAll(Started(t, plan), plan, k), plan, plan.moves[k]) <==> WayClear(t, plan, k)
  {
    hide Relocate, Follow, PlanReady, Vacated, MovedAll, CanMoveAll, PlaceOf;
    ReadyStarts(t, plan);
    var now, move := MovedAll(Started(t, plan), plan, k), plan.moves[k];
    AlwaysUnderway(t, plan, k);
    TakenAfter(t, plan, k, move.to);
    DestinationFacts(t, plan, k);
    FileCannotContainFolder(now, SourceOf(plan, move), plan.target, move.to);
  }

  lemma DestinationFacts(t: Tree, plan: Plan, k: nat)
    requires PlanReady(t, plan)
    requires k < |plan.moves|
    ensures plan.moves[k].to != [] && Parent(plan.moves[k].to) == plan.target
    ensures !Filled(plan, plan.moves[k].to, k)
  {
    assert MoveReady(t, plan, plan.moves[k]);
  }

  lemma FileCannotContainFolder(t: Tree, file: Path, folder: Path, to: Path)
    requires WellFormed(t) && IsFile(t, file) && IsFolder(t, folder)
    requires to != [] && Parent(to) == folder
    ensures file != to ==> !(file <= to)
  {
    if file <= to && file != to {
      assert file <= folder;
      NothingBelowFile(t, file, folder);
    }
  }

  /** With the folder free to move and files at distinct paths, the plan can be carried out exactly when each
      destination, at its turn, is the file's own place, was free in the moved folder, or has been given up. */
  lemma SucceedsExactlyWhenClear(t: Tree, rows: Rows, item: Item, plan: Plan)
    requires Sensible(t, rows, item, plan)
    ensures CanExecute(t, plan) <==> forall i :: 0 <= i < |plan.moves| ==> WayClear(t, plan, i)
  {
    hide Planned, PlanReady, WayClear;
    SensibleIsReady(t, rows, item, plan);
    ClearWayMoves(t, plan, |plan.moves|);
  }

  /** A plan that does not move the folder always goes through. */
  lemma InPlacePlansSucceed(t: Tree, rows: Rows, item: Item, plan: Plan)
    requires Sensible(t, rows, item, plan)
    requires !plan.MovesFolder()
    ensures CanExecute(t, plan)
  {
    hide Planned, PlanReady;
    SucceedsExactlyWhenClear(t, rows, item, plan);
    forall i | 0 <= i < |plan.moves|
      ensures WayClear(t, plan, i)
    {
      PlanGuarantees(t, rows, item, plan, i);
    }
  }

  /** Files that are not renamed follow the folder and nothing else: a row of another item stays right unless
      its file lay in the folder that moved. */
  lemma {:induction false} BystandersFollowTheFolder(t: Tree, plan: Plan, k: nat, p: Path)
    requires PlanReady(t, plan)
    requires k <= |plan.moves| && CanMoveAll(Started(t, plan), plan, k)
    requires p in t && forall move <- plan.moves :: move.from != p
    ensures PlaceOf(plan, p, k) == if plan.MovesFolder() then Follow(p, plan.source, plan.target) else p
  {
    hide Relocate, WellFormed, Follow, PlanReady, CanRelocate;
    ReadyStarts(t, plan);
    if k > 0 {
      BystandersFollowTheFolder(t, plan, k - 1, p);
      AlwaysUnderway(t, plan, k - 1);
      EverythingIsSomewhere(t, plan, k - 1);
      var before, move := MovedAll(Started(t, plan), plan, k - 1), plan.moves[k - 1];
      assert MoveReady(t, plan, move) by { ReadyMoves(t, plan, k - 1); }
      OthersStay(before, SourceOf(plan, move), move.to, PlaceOf(plan, p, k - 1));
    }
  }

  lemma ReadyMoves(t: Tree, plan: Plan, i: nat)
    requires PlanReady(t, plan)
    requires i < |plan.moves|
    ensures MoveReady(t, plan, plan.moves[i])
  {
  }

  /** When the folder has moved, the old path of a file that was in it but is not renamed leads nowhere, so a row
      of another item, or an inactive row, that named it is left stale. */
  lemma BystandersGoStale(t: Tree, plan: Plan, p: Path)
    requires PlanReady(t, plan)
    requires plan.MovesFolder() && CanExecute(t, plan)
    requires IsFile(t, p) && plan.source <= p
    ensures p !in Executed(t, plan)
  {
    hide Relocate, PlaceOf, Vacated, MovedAll, CanMoveAll, Underway;
    TakenAfter(t, plan, |plan.moves|, p);
    RelocateKeys(t, plan.source, plan.target, p);
    assert !(plan.target <= p) by {
      if plan.target <= p {
        AncestorsExist(t, plan.target, p);
      }
    }
    assert Follow(p, plan.target, plan.source) == p && Follow(p, plan.source, plan.target) != p by {
      LeavesTheFolder(plan.source, plan.target, p);
    }
    forall j | 0 <= j < |plan.moves|
      ensures plan.moves[j].to != p
    {
      ReadyMoves(t, plan, j);
      assert plan.target <= plan.moves[j].to;
    }
  }

  lemma LeavesTheFolder(source: Path, target: Path, p: Path)
    requires source <= p && !(target <= p)
    ensures Follow(p, source, target) != p
  {
    assert target <= target + p[|source|..];
  }

  const OLD_TREE: Tree := map[
    [] := Folder,
    ["old"] := Folder,
    ["old", "a.mkv"] := File("a"),
    ["old", "T (1).mkv"] := File("b")
  ]

  const ONE_ROW: Rows := map["1" := FileRow(["old", "a.mkv"], "a.mkv", "T (1)", ".mkv")]
  const ONE_ITEM := Item(["old"], true, "T (1)", ["1"])
  const ONE_PLAN := Plan(["old"], ["T (1)"], [FileMove(["old", "a.mkv"], ["T (1)", "T (1).mkv"], "1")])

  lemma OldTreeStarts()
    ensures CanStart(OLD_TREE, ONE_PLAN)
  {
    assert Parent(["old"]) == [] && Parent(["old", "a.mkv"]) == ["old"] && Parent(["old", "T (1).mkv"]) == ["old"];
    assert Parent(["T (1)"]) == [];
    assert ["T (1)"] !in OLD_TREE;
  }

  lemma OldTreePlanned()
    ensures Planned(OLD_TREE, ONE_ROW, ONE_ITEM, ONE_PLAN)
  {
    var move := ONE_PLAN.moves[0];
    assert "T (1)" + ".mkv" == "T (1).mkv";
    assert Candidate(ONE_PLAN.target, ONE_ROW["1"], 1) == move.to;
    assert ONE_PLAN.moves[..0] == [];
    assert |move.to| == 2 && move.to[0] == "T (1)";
    assert move.to != ["old", "a.mkv"] && move.to != ["old", "T (1).mkv"] by {
      assert "T (1)"[0] != "old"[0];
    }
    assert move.to !in OLD_TREE;
    assert !Occupied(OLD_TREE, Destinations([]), move.from, move.to);
    assert MovePlanned(OLD_TREE, ONE_ROW["1"], ONE_PLAN.target, [], move);
  }

  /** A folder move can make a plan fail that nothing from outside disturbs: the plan takes the destination for
      free because the target folder does not exist yet, but the moved folder brings a file of that name. */
  lemma FolderMoveCanBlock()
    ensures Sensible(OLD_TREE, ONE_ROW, ONE_ITEM, ONE_PLAN)
    ensures !CanExecute(OLD_TREE, ONE_PLAN)
  {
    hide Relocate, Planned, WellFormed, CanRelocate, CanMoveAll, MovedAll;
    OldTreeStarts();
    OldTreePlanned();
    SucceedsExactlyWhenClear(OLD_TREE, ONE_ROW, ONE_ITEM, ONE_PLAN);
    RelocateMoves(OLD_TREE, ["old"], ["T (1)"]);
    assert ["old", "T (1).mkv"][1..] == ["T (1).mkv"] && ["old", "a.mkv"][1..] == ["a.mkv"];
    assert Follow(["old", "T (1).mkv"], ["old"], ["T (1)"]) == ["T (1)", "T (1).mkv"];
    assert SourceOf(ONE_PLAN, ONE_PLAN.moves[0]) == ["T (1)", "a.mkv"];
    assert ["T (1)", "a.mkv"] != ["T (1)", "T (1).mkv"] by {
      assert "a.mkv"[0] != "T (1).mkv"[0];
    }
    assert !WayClear(OLD_TREE, ONE_PLAN, 0);
  }

  // ----- a row that is left stale -----

  /** Two items share a folder; the first one's file is to be renamed, and the second one's is not. */
  const SHARED_TREE: Tree := map[
    [] := Folder,
    ["old"] := Folder,
    ["old", "a.mkv"] := File("a"),
    ["old", "b.mkv"] := File("b")
  ]

  const TWO_ROWS: Rows := ONE_ROW["2" := FileRow(["old", "b.mkv"], "b.mkv", "B (2)", ".mkv")]

  lemma SharedTreeStarts()
    ensures CanStart(SHARED_TREE, ONE_PLAN)
  {
    assert Parent(["old"]) == [] && Parent(["old", "a.mkv"]) == ["old"] && Parent(["old", "b.mkv"]) == ["old"];
    assert Parent(["T (1)"]) == [];
    assert ["T (1)"] !in SHARED_TREE;
  }

  lemma SharedTreePlanned()
    ensures Planned(SHARED_TREE, TWO_ROWS, ONE_ITEM, ONE_PLAN)
  {
    var move := ONE_PLAN.moves[0];
    assert "T (1)" + ".mkv" == "T (1).mkv";
    assert Candidate(ONE_PLAN.target, TWO_ROWS["1"], 1) == move.to;
    assert ONE_PLAN.moves[..0] == [];
    assert |move.to| == 2 && move.to[0] == "T (1)";
    assert move.to != ["old", "a.mkv"] && move.to != ["old", "b.mkv"] by {
      assert "T (1)"[0] != "old"[0];
    }
    assert move.to !in SHARED_TREE;
    assert !Occupied(SHARED_TREE, Destinations([]), move.from, move.to);
    assert MovePlanned(SHARED_TREE, TWO_ROWS["1"], ONE_PLAN.target, [], move);
  }

  lemma SharedTreeIsClear()
    ensures CanStart(SHARED_TREE, ONE_PLAN) && WayClear(SHARED_TREE, ONE_PLAN, 0)
  {
    hide Relocate, WellFormed, CanRelocate;
    SharedTreeStarts();
    var to := ONE_PLAN.moves[0].to;
    RelocateKeys(SHARED_TREE, ["old"], ["T (1)"], to);
    assert to[1..] == ["T (1).mkv"];
    assert Follow(to, ["T (1)"], ["old"]) == ["old", "T (1).mkv"];
    assert "T (1).mkv"[0] != "a.mkv"[0] && "T (1).mkv"[0] != "b.mkv"[0];
    assert ["old", "T (1).mkv"][1] != "a.mkv" && ["old", "T (1).mkv"][1] != "b.mkv";
    assert ["old", "T (1).mkv"] !in SHARED_TREE;
  }

  /** The rename of the first item goes through and leaves the second item's row as it was; the file it names was
      there before and is not there any more. */
  lemma FolderMoveLeavesAStaleRow()
    ensures Sensible(SHARED_TREE, TWO_ROWS, ONE_ITEM, ONE_PLAN) && CanExecute(SHARED_TREE, ONE_PLAN)
    ensures "2" in TWO_ROWS && "2" !in ONE_ITEM.files && IsFile(SHARED_TREE, TWO_ROWS["2"].path)
    ensures var after := UpdateRows(TWO_ROWS, ONE_PLAN.moves);
            "2" in after && after["2"] == TWO_ROWS["2"] && after["2"].path !in Executed(SHARED_TREE, ONE_PLAN)
  {
    hide Relocate, Planned, WellFormed, CanRelocate, CanMoveAll, MovedAll, UpdateRows, WayClear;
    SharedTreeIsClear();
    SharedTreePlanned();
    SucceedsExactlyWhenClear(SHARED_TREE, TWO_ROWS, ONE_ITEM, ONE_PLAN);
    SensibleIsReady(SHARED_TREE, TWO_ROWS, ONE_ITEM, ONE_PLAN);
    RowUpdated(TWO_ROWS, ONE_PLAN.moves, "2");
    BystandersGoStale(SHARED_TREE, ONE_PLAN, ["old", "b.mkv"]);
  }
}
