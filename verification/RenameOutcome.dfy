/** When a planned rename can be carried out, and what it achieves. */
module RenameOutcome {
  import opened FileTree
  import opened RenamePlanning
  import opened RenameEffects

  /** A plan made for this tree whose files are at distinct paths. */
  ghost predicate Sensible(t: Tree, rows: Rows, item: Item, plan: Plan) {
    && Known(rows, item)
    && Planned(t, rows, item, plan)
    && CanStart(t, plan)
    && DistinctSources(plan.moves)
  }

  /** What one planned move brings along. */
  ghost predicate MoveReady(t: Tree, plan: Plan, move: FileMove) {
    && IsFile(t, move.from)
    && move.to != [] && Parent(move.to) == plan.target
    && (move.to !in t || move.to == move.from)
  }

  ghost predicate PlanReady(t: Tree, plan: Plan) {
    && CanStart(t, plan)
    && IsFolder(t, plan.source)
    && plan.target != []
    && (forall move <- plan.moves :: MoveReady(t, plan, move))
    && (forall i, j :: 0 <= i < j < |plan.moves| ==> plan.moves[i].to != plan.moves[j].to)
    && DistinctSources(plan.moves)
  }

  lemma SensibleIsReady(t: Tree, rows: Rows, item: Item, plan: Plan)
    requires Sensible(t, rows, item, plan)
    ensures PlanReady(t, plan)
  {
    hide MovePlanned, WellFormed, CanRelocate;
    forall move <- plan.moves
      ensures MoveReady(t, plan, move)
    {
      var j :| 0 <= j < |plan.moves| && plan.moves[j] == move;
      PlanGuarantees(t, rows, item, plan, j);
    }
    forall i, j | 0 <= i < j < |plan.moves|
      ensures plan.moves[i].to != plan.moves[j].to
    {
      PlanGuarantees(t, rows, item, plan, j);
    }
  }

  // ----- during the moves -----

  /** A node that is not the moved file stays where it is. */
  lemma OthersStay(t: Tree, source: Path, to: Path, q: Path)
    requires WellFormed(t) && IsFile(t, source)
    requires q in t && q != source
    ensures Follow(q, source, to) == q
  {
    if source <= q {
      NothingBelowFile(t, source, q);
    }
  }

  /** Where things are after k moves: earlier files at their destinations, later ones still at their sources,
      and the target folder in place. */
  ghost predicate Underway(t: Tree, plan: Plan, k: nat)
    requires k <= |plan.moves|
    requires CanStart(t, plan) && CanMoveAll(Started(t, plan), plan, k)
  {
    var now := MovedAll(Started(t, plan), plan, k);
    && WellFormed(now)
    && IsFolder(now, plan.target)
    && (forall i :: 0 <= i < k ==> PlaceOf(plan, plan.moves[i].from, k) == plan.moves[i].to)
    && (forall i :: k <= i < |plan.moves| ==> PlaceOf(plan, plan.moves[i].from, k) == SourceOf(plan, plan.moves[i]))
    && (forall i :: 0 <= i < |plan.moves| ==> IsFile(now, PlaceOf(plan, plan.moves[i].from, k)))
    && (forall i, j :: 0 <= i < j < |plan.moves| ==>
          PlaceOf(plan, plan.moves[i].from, k) != PlaceOf(plan, plan.moves[j].from, k))
  }

  lemma FilesAreSomewhere(t: Tree, plan: Plan, k: nat)
    requires PlanReady(t, plan)
    requires k <= |plan.moves| && CanMoveAll(Started(t, plan), plan, k)
    ensures var now := MovedAll(Started(t, plan), plan, k);
            && (forall i :: 0 <= i < |plan.moves| ==> IsFile(now, PlaceOf(plan, plan.moves[i].from, k)))
            && (forall i, j :: 0 <= i < j < |plan.moves| ==>
                  PlaceOf(plan, plan.moves[i].from, k) != PlaceOf(plan, plan.moves[j].from, k))
  {
    hide PlaceOf, CanStart, CanMove, MovedAll, CanMoveAll, WellFormed;
    EverythingIsSomewhere(t, plan, k);
    assert forall i :: 0 <= i < |plan.moves| ==> MoveReady(t, plan, plan.moves[i]);
  }

  lemma StartUnderway(t: Tree, plan: Plan)
    requires PlanReady(t, plan)
    ensures Underway(t, plan, 0)
  {
    hide Relocate, WellFormed, IsFolder;
    FilesAreSomewhere(t, plan, 0);
    if plan.MovesFolder() {
      RelocateWellFormed(t, plan.source, plan.target);
      RelocateMoves(t, plan.source, plan.target);
      NewName(plan.source, plan.target);
    }
    assert IsFolder(Started(t, plan), plan.target) by {
      FolderAtTarget(t, plan);
    }
  }

  lemma FolderAtTarget(t: Tree, plan: Plan)
    requires PlanReady(t, plan)
    ensures IsFolder(Started(t, plan), plan.target)
  {
    hide Relocate;
    if plan.MovesFolder() {
      RelocateMoves(t, plan.source, plan.target);
      NewName(plan.source, plan.target);
    }
  }

  lemma {:induction false} AlwaysUnderway(t: Tree, plan: Plan, k: nat)
    requires PlanReady(t, plan)
    requires k <= |plan.moves| && CanMoveAll(Started(t, plan), plan, k)
    ensures Underway(t, plan, k)
  {
    hide Relocate, WellFormed, Follow, PlanReady, CanRelocate, CanStart, MovedAll, CanMoveAll, Underway;
    if k == 0 {
      StartUnderway(t, plan);
    } else {
      ReadyStarts(t, plan);
      OneLess(t, plan, k);
      AlwaysUnderway(t, plan, k - 1);
      NextUnderway(t, plan, k);
    }
  }

  lemma OneLess(t: Tree, plan: Plan, k: nat)
    requires CanStart(t, plan) && 0 < k <= |plan.moves| && CanMoveAll(Started(t, plan), plan, k)
    ensures CanMoveAll(Started(t, plan), plan, k - 1)
    ensures CanMove(MovedAll(Started(t, plan), plan, k - 1), plan, plan.moves[k - 1])
    ensures MovedAll(Started(t, plan), plan, k)
            == Moved(MovedAll(Started(t, plan), plan, k - 1), plan, plan.moves[k - 1])
  {
    hide Relocate, WellFormed, Follow, CanRelocate, CanStart;
  }

  /** One file goes to its destination, and the other files and the target folder stay where they are. */
  lemma NextUnderway(t: Tree, plan: Plan, k: nat)
    requires PlanReady(t, plan) && CanStart(t, plan)
    requires 0 < k <= |plan.moves| && CanMoveAll(Started(t, plan), plan, k)
    requires CanMoveAll(Started(t, plan), plan, k - 1) && Underway(t, plan, k - 1)
    ensures Underway(t, plan, k)
  {
    hide Relocate, WellFormed, Follow, PlanReady, CanRelocate, CanStart, MovedAll, CanMoveAll, Started;
    OneLess(t, plan, k);
    FilesAreSomewhere(t, plan, k);
    StartedWellFormed(t, plan);
    MovedAllWellFormed(Started(t, plan), plan, k);
    var before, move := MovedAll(Started(t, plan), plan, k - 1), plan.moves[k - 1];
    var source := SourceOf(plan, move);
    NewName(source, move.to);
    FollowNowhere(plan.target, source);
    OthersStay(before, source, move.to, plan.target);
    forall i | 0 <= i < |plan.moves| && i != k - 1
      ensures PlaceOf(plan, plan.moves[i].from, k) == PlaceOf(plan, plan.moves[i].from, k - 1)
    {
      OthersStay(before, source, move.to, PlaceOf(plan, plan.moves[i].from, k - 1));
    }
    if source != move.to {
      RelocateMoves(before, source, move.to);
    }
  }

  lemma ReadyStarts(t: Tree, plan: Plan)
    requires PlanReady(t, plan)
    ensures CanStart(t, plan)
  {
  }

  lemma StartedWellFormed(t: Tree, plan: Plan)
    requires CanStart(t, plan)
    ensures WellFormed(Started(t, plan))
  {
    if plan.MovesFolder() {
      RelocateWellFormed(t, plan.source, plan.target);
    }
  }

  // ----- what is achieved -----

  /** The row of the i-th file names the place where that very file ended up. */
  ghost predicate RowNamesItsFile(plan: Plan, rows: Rows, i: nat)
    requires i < |plan.moves|
  {
    var move := plan.moves[i];
    move.id in rows && rows[move.id].path == PlaceOf(plan, move.from, |plan.moves|)
  }

  /** And it has the content it had. */
  ghost predicate RowKeepsItsFile(t: Tree, plan: Plan, rows: Rows, after: Rows, i: nat)
    requires i < |plan.moves| && CanExecute(t, plan)
  {
    var id := plan.moves[i].id;
    && RowNamesItsFile(plan, after, i)
    && id in rows && rows[id].path in t
    && IsFile(Executed(t, plan), after[id].path)
    && Executed(t, plan)[after[id].path] == t[rows[id].path]
  }

  /** After a rename that went through, every row of the item names its own file, with the content it had. */
  lemma RowsNameTheirFiles(t: Tree, rows: Rows, item: Item, plan: Plan)
    requires Sensible(t, rows, item, plan)
    requires DistinctIds(plan.moves)
    requires forall move <- plan.moves :: move.id in rows && move.to != []
    requires CanExecute(t, plan)
    ensures forall i :: 0 <= i < |plan.moves| ==> RowKeepsItsFile(t, plan, rows, UpdateRows(rows, plan.moves), i)
  {
    hide Sensible, CanExecute, RowKeepsItsFile, UpdateRows, DistinctIds;
    forall i | 0 <= i < |plan.moves|
      ensures RowKeepsItsFile(t, plan, rows, UpdateRows(rows, plan.moves), i)
    {
      RowNamesFile(t, rows, item, plan, i);
    }
  }

  lemma RowNamesFile(t: Tree, rows: Rows, item: Item, plan: Plan, i: nat)
    requires Sensible(t, rows, item, plan)
    requires DistinctIds(plan.moves)
    requires forall move <- plan.moves :: move.id in rows && move.to != []
    requires CanExecute(t, plan) && i < |plan.moves|
    ensures RowKeepsItsFile(t, plan, rows, UpdateRows(rows, plan.moves), i)
  {
    hide Planned, Known, DistinctIds, DistinctSources, CanStart, CanExecute, Executed, PlaceOf, UpdateRows, IsFile;
    PlannedFrom(t, rows, item, plan, i);
    SensibleIsReady(t, rows, item, plan);
    EndsAtDestination(t, plan, i);
    KeepsContent(t, plan, plan.moves[i].from);
    RowUpdated(rows, plan.moves, plan.moves[i].id);
  }

  lemma EndsAtDestination(t: Tree, plan: Plan, i: nat)
    requires PlanReady(t, plan) && CanExecute(t, plan) && i < |plan.moves|
    ensures PlaceOf(plan, plan.moves[i].from, |plan.moves|) == plan.moves[i].to
    ensures IsFile(Executed(t, plan), plan.moves[i].to)
  {
    hide PlaceOf, MovedAll, CanMoveAll, IsFile, WellFormed, PlanReady, CanStart, Started;
    AlwaysUnderway(t, plan, |plan.moves|);
  }

  lemma KeepsContent(t: Tree, plan: Plan, p: Path)
    requires CanExecute(t, plan) && p in t
    ensures PlaceOf(plan, p, |plan.moves|) in Executed(t, plan)
    ensures Executed(t, plan)[PlaceOf(plan, p, |plan.moves|)] == t[p]
  {
    hide PlaceOf, MovedAll, CanMoveAll, CanStart, Started;
    EverythingIsSomewhere(t, plan, |plan.moves|);
  }

  lemma PlannedFrom(t: Tree, rows: Rows, item: Item, plan: Plan, i: nat)
    requires Known(rows, item) && Planned(t, rows, item, plan)
    requires i < |plan.moves|
    ensures plan.moves[i].id in rows
    ensures plan.moves[i].from == rows[plan.moves[i].id].path && plan.moves[i].from in t
  {
    assert MovePlanned(t, rows[item.files[i]], plan.target, plan.moves[..i], plan.moves[i]);
  }

  /** Two rows for one file cannot both be right afterwards, because their destinations differ: that the rows
      name their own files holds exactly when the rows name distinct files to begin with. */
  lemma SharedFilesGoWrong(t: Tree, rows: Rows, item: Item, plan: Plan, i: nat, j: nat)
    requires Known(rows, item) && Planned(t, rows, item, plan)
    requires DistinctIds(plan.moves)
    requires forall move <- plan.moves :: move.id in rows && move.to != []
    requires i < j < |plan.moves| && plan.moves[i].from == plan.moves[j].from
    ensures var after := UpdateRows(rows, plan.moves);
            !(RowNamesItsFile(plan, after, i) && RowNamesItsFile(plan, after, j))
  {
    hide Planned, PlaceOf;
    RowsUpdated(rows, plan.moves);
    PlanGuarantees(t, rows, item, plan, j);
  }
}
