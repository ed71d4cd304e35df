/** What carrying out a plan does to the tree and the rows, step by step. */
module RenameEffects {
  import opened FileTree
  import opened RenamePlanning

  // ----- the steps -----

  /** Where a planned file is once the folder has moved. */
  function SourceOf(plan: Plan, move: FileMove): Path {
    if plan.MovesFolder() then Follow(move.from, plan.source, plan.target) else move.from
  }

  ghost predicate CanStart(t: Tree, plan: Plan) {
    WellFormed(t) && (plan.MovesFolder() ==> CanRelocate(t, plan.source, plan.target))
  }

  ghost function Started(t: Tree, plan: Plan): Tree
    requires CanStart(t, plan)
  {
    if plan.MovesFolder() then Relocate(t, plan.source, plan.target) else t
  }

  /** A file that is already in place only has to exist; any other must be able to move to a free name.
      After a folder move the file must have been inside the folder. */
  ghost predicate CanMove(t: Tree, plan: Plan, move: FileMove) {
    && (plan.MovesFolder() ==> plan.source <= move.from)
    && (if SourceOf(plan, move) == move.to then move.to in t else CanRelocate(t, SourceOf(plan, move), move.to))
  }

  ghost function Moved(t: Tree, plan: Plan, move: FileMove): Tree
    requires CanMove(t, plan, move)
  {
    if SourceOf(plan, move) == move.to then t else Relocate(t, SourceOf(plan, move), move.to)
  }

  /** The first k moves can be made one after the other. */
  ghost predicate CanMoveAll(t: Tree, plan: Plan, k: nat)
    requires k <= |plan.moves|
    decreases k, 0
  {
    k > 0 ==> CanMoveAll(t, plan, k - 1) && CanMove(MovedAll(t, plan, k - 1), plan, plan.moves[k - 1])
  }

  ghost function MovedAll(t: Tree, plan: Plan, k: nat): Tree
    requires k <= |plan.moves|
    requires CanMoveAll(t, plan, k)
    decreases k, 1
  {
    if k == 0 then t else Moved(MovedAll(t, plan, k - 1), plan, plan.moves[k - 1])
  }

  ghost predicate CanExecute(t: Tree, plan: Plan) {
    CanStart(t, plan) && CanMoveAll(Started(t, plan), plan, |plan.moves|)
  }

  ghost function Executed(t: Tree, plan: Plan): Tree
    requires CanExecute(t, plan)
  {
    MovedAll(Started(t, plan), plan, |plan.moves|)
  }

  lemma {:induction false} MovedAllWellFormed(t: Tree, plan: Plan, k: nat)
    requires k <= |plan.moves|
    requires WellFormed(t) && CanMoveAll(t, plan, k)
    ensures WellFormed(MovedAll(t, plan, k))
  {
    if k > 0 {
      var before, move := MovedAll(t, plan, k - 1), plan.moves[k - 1];
      MovedAllWellFormed(t, plan, k - 1);
      if SourceOf(plan, move) != move.to {
        RelocateWellFormed(before, SourceOf(plan, move), move.to);
      }
    }
  }

  // ----- the rows -----

  function Renamed(row: FileRow, path: Path): FileRow
    requires path != []
  {
    row.(path := path, filename := path[|path| - 1])
  }

  /** The row updates, in order; an update of an unknown row changes nothing. */
  function UpdateRows(rows: Rows, moves: seq<FileMove>): Rows
    requires forall move <- moves :: move.to != []
  {
    if moves == [] then rows
    else
      var before, last := UpdateRows(rows, moves[..|moves| - 1]), moves[|moves| - 1];
      if last.id in before then before[last.id := Renamed(before[last.id], last.to)] else before
  }

  ghost predicate DistinctIds(moves: seq<FileMove>) {
    forall i, j :: 0 <= i < j < |moves| ==> moves[i].id != moves[j].id
  }

  ghost predicate DistinctSources(moves: seq<FileMove>) {
    forall i, j :: 0 <= i < j < |moves| ==> moves[i].from != moves[j].from
  }

  lemma {:induction false} UpdatesKeepKeys(rows: Rows, moves: seq<FileMove>)
    requires forall move <- moves :: move.to != []
    ensures UpdateRows(rows, moves).Keys == rows.Keys
  {
    if moves != [] {
      UpdatesKeepKeys(rows, moves[..|moves| - 1]);
    }
  }

  lemma {:induction false} RowUpdated(rows: Rows, moves: seq<FileMove>, id: FileId)
    requires forall move <- moves :: move.to != []
    requires DistinctIds(moves) && id in rows
    ensures id in UpdateRows(rows, moves)
    ensures forall i :: 0 <= i < |moves| && moves[i].id == id ==> UpdateRows(rows, moves)[id] == Renamed(rows[id], moves[i].to)
    ensures (forall i :: 0 <= i < |moves| ==> moves[i].id != id) ==> UpdateRows(rows, moves)[id] == rows[id]
  {
    UpdatesKeepKeys(rows, moves);
    hide Renamed;
    if moves != [] {
      var front, last := moves[..|moves| - 1], moves[|moves| - 1];
      UpdatesKeepKeys(rows, front);
      RowUpdated(rows, front, id);
      assert forall i :: 0 <= i < |front| ==> front[i] == moves[i];
    }
  }

  lemma RenamedRow(row: FileRow, path: Path)
    requires path != []
    ensures var renamed := Renamed(row, path);
            && renamed.path == path && renamed.filename == path[|path| - 1]
            && renamed.stem == row.stem && renamed.extension == row.extension
  {
  }

  lemma RowsUpdated(rows: Rows, moves: seq<FileMove>)
    requires forall move <- moves :: move.to != [] && move.id in rows
    requires DistinctIds(moves)
    ensures var after := UpdateRows(rows, moves);
            && after.Keys == rows.Keys
            && (forall move <- moves ::
                  && after[move.id].path == move.to && after[move.id].filename == move.to[|move.to| - 1]
                  && after[move.id].stem == rows[move.id].stem && after[move.id].extension == rows[move.id].extension)
            && (forall id <- rows :: (forall move <- moves :: move.id != id) ==> after[id] == rows[id])
  {
    UpdatesKeepKeys(rows, moves);
    hide UpdateRows, Renamed;
    forall move <- moves
      ensures && Renamed(rows[move.id], move.to).path == move.to
              && Renamed(rows[move.id], move.to).filename == move.to[|move.to| - 1]
              && Renamed(rows[move.id], move.to).stem == rows[move.id].stem
              && Renamed(rows[move.id], move.to).extension == rows[move.id].extension
    {
      RenamedRow(rows[move.id], move.to);
    }
    forall id <- rows
      ensures forall move <- moves :: move.id == id ==> UpdateRows(rows, moves)[id] == Renamed(rows[id], move.to)
      ensures (forall move <- moves :: move.id != id) ==> UpdateRows(rows, moves)[id] == rows[id]
    {
      RowUpdated(rows, moves, id);
    }
  }

  // ----- where each file ends up -----

  /** Where the file first found at p is after the folder move and k file moves. */
  ghost function PlaceOf(plan: Plan, p: Path, k: nat): Path
    requires k <= |plan.moves|
  {
    if k == 0 then (if plan.MovesFolder() then Follow(p, plan.source, plan.target) else p)
    else Follow(PlaceOf(plan, p, k - 1), SourceOf(plan, plan.moves[k - 1]), plan.moves[k - 1].to)
  }

  lemma FollowNowhere(p: Path, q: Path)
    ensures Follow(p, q, q) == p
  {
  }

  /** Carrying out a plan loses, overwrites and merges nothing: every node of the tree is found, unchanged,
      in its own place, and nothing else is there. */
  lemma {:induction false} EverythingIsSomewhere(t: Tree, plan: Plan, k: nat)
    requires k <= |plan.moves|
    requires CanStart(t, plan) && CanMoveAll(Started(t, plan), plan, k)
    ensures var after := MovedAll(Started(t, plan), plan, k);
            && (forall p <- t :: PlaceOf(plan, p, k) in after && after[PlaceOf(plan, p, k)] == t[p])
            && (forall p, q :: p in t && q in t && PlaceOf(plan, p, k) == PlaceOf(plan, q, k) ==> p == q)
            && (forall q <- after :: exists p <- t :: PlaceOf(plan, p, k) == q)
  {
    hide Relocate, Follow;
    if k == 0 {
      if plan.MovesFolder() {
        RelocateMoves(t, plan.source, plan.target);
      }
    } else {
      EverythingIsSomewhere(t, plan, k - 1);
      var before, move := MovedAll(Started(t, plan), plan, k - 1), plan.moves[k - 1];
      var source := SourceOf(plan, move);
      forall p <- t
        ensures source == move.to ==> PlaceOf(plan, p, k) == PlaceOf(plan, p, k - 1)
      {
        FollowNowhere(PlaceOf(plan, p, k - 1), source);
      }
      if source != move.to {
        RelocateMoves(before, source, move.to);
        forall q <- MovedAll(Started(t, plan), plan, k)
          ensures exists p <- t :: PlaceOf(plan, p, k) == q
        {
          var r := Follow(q, move.to, source);
          var p :| p in t && PlaceOf(plan, p, k - 1) == r;
        }
      }
    }
  }
}
