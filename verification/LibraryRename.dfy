/** The rename of a matched library item: plan, check, rename on disk, write the rows, and undo on any failure. */
module LibraryRename {
  import opened FileTree
  import opened RenamePlanning
  import opened RenameEffects
  import opened RenameOutcome
  import opened RenameSuccess

  datatype Error =
    | Busy
    | NotMatched
    | NoFiles
    | FolderMissing
    | FileChanged
    | ReadOnly
    | FolderExists
    | DestinationExists
    | RenameFailed

  datatype Result<+T> = Ok(value: T) | Err(error: Error)

  /** Where something from outside goes wrong: the folder rename, the k-th file rename, the k-th look at a
      renamed file, or the k-th statement of the database transaction, the last being the item's own. */
  datatype Fault = NoFault | AtFolder | AtFile(k: nat) | AtStat(k: nat) | AtUpdate(k: nat)

  /** The fault is one this plan comes across. */
  predicate Strikes(plan: Plan, fault: Fault) {
    match fault
    case NoFault => false
    case AtFolder => plan.MovesFolder()
    case AtFile(k) => k < |plan.moves| && SourceOf(plan, plan.moves[k]) != plan.moves[k].to
    case AtStat(k) => k < |plan.moves|
    case AtUpdate(k) => k <= |plan.moves|
  }

  /** The file renames made so far, and the trees between them. */
  ghost predicate Trail(made: seq<(Path, Path)>, trees: seq<Tree>) {
    && |trees| == |made| + 1
    && WellFormed(trees[0])
    && forall i :: 0 <= i < |made| ==>
        && CanRelocate(trees[i], made[i].0, made[i].1)
        && trees[i + 1] == Relocate(trees[i], made[i].0, made[i].1)
  }

  lemma TrailGrows(made: seq<(Path, Path)>, trees: seq<Tree>, from: Path, to: Path)
    requires Trail(made, trees)
    requires CanRelocate(trees[|made|], from, to)
    ensures Trail(made + [(from, to)], trees + [Relocate(trees[|made|], from, to)])
  {
    hide Relocate, CanRelocate, WellFormed;
  }

  class LibraryService {
    var tree: Tree
    var rows: Rows
    var item: Item
    var locked: bool

    ghost predicate Valid()
      reads this
    {
      && WellFormed(tree)
      && Known(rows, item)
      && forall i, j :: 0 <= i < j < |item.files| ==> item.files[i] != item.files[j]
    }

    constructor (tree: Tree, rows: Rows, item: Item)
      requires WellFormed(tree) && Known(rows, item)
      requires forall i, j :: 0 <= i < j < |item.files| ==> item.files[i] != item.files[j]
      ensures Valid() && !locked
      ensures this.tree == tree && this.rows == rows && this.item == item
    {
      this.tree, this.rows, this.item, this.locked := tree, rows, item, false;
    }

    /** Path.rename: it may fail by itself or by a fault, and then changes nothing. */
    method Rename(from: Path, to: Path, faulty: bool) returns (ok: bool)
      requires WellFormed(tree)
      modifies this`tree
      ensures ok <==> !faulty && OsRename(old(tree), from, to).Done?
      ensures tree == if ok then OsRename(old(tree), from, to).tree else old(tree)
    {
      ok := false;
      if !faulty {
        match OsRename(tree, from, to) {
          case Failed =>
          case Done(after) =>
            tree := after;
            ok := true;
        }
      }
    }

    /** The plan, or the reason there is none. */
    method RenamePlan() returns (result: Result<Plan>)
      requires Valid()
      ensures result.Ok? ==> Planned(tree, rows, item, result.value)
      ensures result.Ok? <==>
              && item.matched && item.files != [] && IsFolder(tree, item.path)
              && forall id <- item.files :: IsFile(tree, rows[id].path)
      ensures result.Err? ==>
                result.error == (if !item.matched then NotMatched
                                 else if item.files == [] then NoFiles
                                 else if !IsFolder(tree, item.path) then FolderMissing
                                 else FileChanged)
    {
      if !item.matched {
        return Err(NotMatched);
      }
      if item.files == [] {
        return Err(NoFiles);
      }
      if !IsFolder(tree, item.path) {
        return Err(FolderMissing);
      }
      var target := [item.folderName];
      var moves: seq<FileMove> := [];
      var used: set<Path> := {};
      for k := 0 to |item.files|
        invariant used == Destinations(moves)
        invariant MovesPlanned(tree, rows, item.files[..k], target, moves)
        invariant forall id <- item.files[..k] :: IsFile(tree, rows[id].path)
      {
        hide MovesPlanned, MovePlanned, Candidate, IsFile, Occupied;
        var row := rows[item.files[k]];
        assert item.files[..k + 1] == item.files[..k] + [item.files[k]];
        if !IsFile(tree, row.path) {
          assert item.files[k] in item.files;
          return Err(FileChanged);
        }
        var destination, n := ChooseDestination(tree, used, target, row);
        var move := FileMove(row.path, destination, item.files[k]);
        PlannedByChoice(tree, row, target, moves, move, n);
        MovesPlannedGrows(tree, rows, item.files[..k], target, moves, item.files[k], move);
        used := used + {destination};
        moves := moves + [move];
      }
      assert item.files[..|item.files|] == item.files;
      result := Ok(Plan(item.path, target, moves));
    }

    /** One file: out of the moved folder, to its destination if it is not there yet, and a look at the result. */
    method MoveFile(plan: Plan, k: nat, fault: Fault) returns (ok: bool, renamed: bool)
      requires WellFormed(tree)
      requires k < |plan.moves|
      modifies this`tree
      ensures WellFormed(tree)
      ensures var move := plan.moves[k];
              && (renamed ==> CanRelocate(old(tree), SourceOf(plan, move), move.to)
                              && tree == Relocate(old(tree), SourceOf(plan, move), move.to))
              && (!renamed ==> tree == old(tree))
              && (ok <==> CanMove(old(tree), plan, move) && !(fault in {AtFile(k), AtStat(k)} && Strikes(plan, fault)))
              && (ok ==> tree == Moved(old(tree), plan, move))
              && (ok ==> (renamed <==> SourceOf(plan, move) != move.to))
    {
      hide Relocate, Follow;
      var move := plan.moves[k];
      renamed := false;
      if plan.MovesFolder() && !(plan.source <= move.from) {
        return false, false;
      }
      var source := SourceOf(plan, move);
      if source != move.to {
        if move.to in tree {
          return false, false;
        }
        renamed := Rename(source, move.to, fault == AtFile(k));
        if !renamed {
          return false, false;
        }
        RelocateWellFormed(old(tree), source, move.to);
        RelocateMoves(old(tree), source, move.to);
        NewName(source, move.to);
      }
      ok := move.to in tree && fault != AtStat(k);
    }

    /** The renames of the files, up to the first failure. */
    method MoveFiles(plan: Plan, fault: Fault) returns (ok: bool, made: seq<(Path, Path)>, ghost trees: seq<Tree>)
      requires WellFormed(tree)
      modifies this`tree
      ensures Trail(made, trees) && trees[0] == old(tree) && tree == trees[|made|] && WellFormed(tree)
      ensures ok <==>
              && CanMoveAll(old(tree), plan, |plan.moves|)
              && !((fault.AtFile? || fault.AtStat?) && Strikes(plan, fault))
      ensures ok ==> tree == MovedAll(old(tree), plan, |plan.moves|)
    {
      hide Relocate, CanRelocate, WellFormed, CanMove, Moved, Trail;
      ghost var start := tree;
      made, trees := [], [tree];
      assert Trail(made, trees) by { TrailStarts(tree); }
      for k := 0 to |plan.moves|
        invariant |trees| == |made| + 1
        invariant Trail(made, trees) && trees[0] == start && tree == trees[|made|] && WellFormed(tree)
        invariant CanMoveAll(start, plan, k) && tree == MovedAll(start, plan, k)
        invariant (fault.AtFile? || fault.AtStat?) && fault.k < k ==> !Strikes(plan, fault)
      {
        var move := plan.moves[k];
        ghost var before := tree;
        if !CanMove(tree, plan, move) {
          NoMoreMoves(start, plan, k);
        }
        var fine, renamed := MoveFile(plan, k, fault);
        if renamed {
          TrailGrows(made, trees, SourceOf(plan, move), move.to);
          made, trees := made + [(SourceOf(plan, move), move.to)], trees + [tree];
        }
        if !fine {
          return false, made, trees;
        }
      }
      ok := true;
    }

    /** The renames undone in reverse, each only if its file is still there and its old name still free. */
    method Undo(made: seq<(Path, Path)>, ghost trees: seq<Tree>)
      requires Trail(made, trees) && tree == trees[|made|]
      modifies this`tree
      ensures tree == trees[0]
    {
      hide Relocate, CanRelocate, WellFormed, OsRename;
      var i := |made|;
      while i > 0
        invariant 0 <= i <= |made|
        invariant tree == trees[i]
      {
        i := i - 1;
        var (source, destination) := made[i];
        UndoStep(trees[i], source, destination);
        if destination in tree && source !in tree {
          var _ := Rename(destination, source, false);
        }
      }
    }

    /** The database transaction: all statements take effect, or none. */
    method WriteRows(plan: Plan, fault: Fault) returns (ok: bool)
      requires forall move <- plan.moves :: move.to != []
      modifies this`rows, this`item
      ensures ok <==> !(fault.AtUpdate? && Strikes(plan, fault))
      ensures ok ==> rows == UpdateRows(old(rows), plan.moves) && item == old(item).(path := plan.target)
      ensures !ok ==> rows == old(rows) && item == old(item)
    {
      var committed := rows;
      for k := 0 to |plan.moves|
        invariant rows == UpdateRows(committed, plan.moves[..k])
        invariant item == old(item)
        invariant fault.AtUpdate? ==> fault.k >= k
      {
        if fault == AtUpdate(k) {
          rows := committed;
          return false;
        }
        var move := plan.moves[k];
        assert plan.moves[..k + 1][..k] == plan.moves[..k];
        if move.id in rows {
          rows := rows[move.id := Renamed(rows[move.id], move.to)];
        }
      }
      assert plan.moves[..|plan.moves|] == plan.moves;
      if fault == AtUpdate(|plan.moves|) {
        rows := committed;
        return false;
      }
      item := item.(path := plan.target);
      ok := true;
    }

    /** Folder, files, rows; on any failure everything made so far is undone. It goes through exactly when the
        plan can be carried out and no fault strikes, and otherwise leaves tree and rows as they were. */
    method Execute(plan: Plan, fault: Fault) returns (ok: bool)
      requires WellFormed(tree)
      requires plan.MovesFolder() ==> plan.target !in tree
      requires forall move <- plan.moves :: move.to != []
      modifies this`tree, this`rows, this`item
      ensures ok <==> CanExecute(old(tree), plan) && !Strikes(plan, fault)
      ensures ok ==>
          && tree == Executed(old(tree), plan)
          && rows == UpdateRows(old(rows), plan.moves)
          && item == old(item).(path := plan.target)
      ensures !ok ==> tree == old(tree) && rows == old(rows) && item == old(item)
      ensures WellFormed(tree)
    {
      hide Relocate, WellFormed, CanMoveAll, MovedAll, CanRelocate, OsRename, UpdateRows;
      ghost var start := tree;
      var folderMoved := false;
      ok := true;
      if plan.MovesFolder() {
        OsRenameToFreeName(tree, plan.source, plan.target);
        folderMoved := Rename(plan.source, plan.target, fault == AtFolder);
        ok := folderMoved;
      }
      if !ok {
        return;
      }
      StartedWellFormed(start, plan);
      var made;
      ghost var trees;
      ok, made, trees := MoveFiles(plan, fault);
      if ok {
        ok := WriteRows(plan, fault);
      }
      if !ok {
        Undo(made, trees);
        if folderMoved {
          UndoStep(start, plan.source, plan.target);
          if plan.target in tree && plan.source !in tree {
            var _ := Rename(plan.target, plan.source, false);
          }
        }
      }
    }

    /** The checks made again just before anything is touched: without a folder move, no destination may exist
        unless it is the file itself. */
    method Revalidate(plan: Plan) returns (ok: bool)
      ensures ok <==> plan.MovesFolder() || forall move <- plan.moves :: move.to in tree ==> move.to == move.from
    {
      for k := 0 to |plan.moves|
        invariant !plan.MovesFolder() ==> forall move <- plan.moves[..k] :: move.to in tree ==> move.to == move.from
      {
        var move := plan.moves[k];
        if !plan.MovesFolder() && move.to in tree && move.to != move.from {
          return false;
        }
        assert plan.moves[..k + 1] == plan.moves[..k] + [move];
      }
      assert plan.moves[..|plan.moves|] == plan.moves;
      ok := true;
    }

    method RenameLocked(writable: bool, fault: Fault) returns (result: Result<Plan>)
      requires Valid()
      modifies this`tree, this`rows, this`item
      ensures Valid()
      ensures result.Err? ==> tree == old(tree) && rows == old(rows) && item == old(item)
      ensures result.Ok? ==>
          && var plan := result.value;
          && Planned(old(tree), old(rows), old(item), plan)
          && CanExecute(old(tree), plan)
          && (forall move <- plan.moves :: move.to != [])
          && tree == Executed(old(tree), plan)
          && rows == UpdateRows(old(rows), plan.moves)
          && item == old(item).(path := plan.target)
      ensures forall plan :: Planned(old(tree), old(rows), old(item), plan) && old(item.matched) ==>
          (result.Ok? <==> writable && CanExecute(old(tree), plan) && !Strikes(plan, fault))
      // a folder that stands in the way is refused before anything is touched
      ensures forall plan :: Planned(old(tree), old(rows), old(item), plan) && old(item.matched) && writable ==>
          (result == Err(FolderExists) <==> plan.MovesFolder() && plan.target in old(tree))
    {
      hide Relocate, WellFormed, CanMoveAll, MovedAll, CanRelocate, UpdateRows, MovePlanned, Planned, Strikes;
      ghost var t, r, i := tree, rows, item;
      var planned := RenamePlan();
      if planned.Err? {
        forall plan | Planned(t, r, i, plan)
          ensures i.files != [] && IsFolder(t, i.path) && forall id <- i.files :: IsFile(t, r[id].path)
        {
          PlanNeeds(t, r, i, plan);
        }
        return planned;
      }
      var plan := planned.value;
      PlanFacts(t, r, i, plan);
      forall other | Planned(t, r, i, other)
        ensures other == plan
      {
        PlanIsUnique(t, r, i, other, plan);
      }
      if !writable {
        return Err(ReadOnly);
      }
      if plan.MovesFolder() && plan.target in tree {
        TakenCannotStart(t, plan);
        return Err(FolderExists);
      }
      var fine := Revalidate(plan);
      if !fine {
        return Err(DestinationExists);
      }
      var ok := Execute(plan, fault);
      if !ok {
        return Err(RenameFailed);
      }
      UpdatesKeepKeys(r, plan.moves);
      result := Ok(plan);
    }

    /** Rename the files of a matched item, or change nothing. */
    method RenameMatchedFiles(writable: bool, fault: Fault) returns (result: Result<Plan>)
      requires Valid()
      modifies this
      ensures Valid() && locked == old(locked)
      ensures result.Err? ==> tree == old(tree) && rows == old(rows) && item == old(item)
      ensures result.Ok? ==>
          && var plan := result.value;
          && Planned(old(tree), old(rows), old(item), plan)
          && CanExecute(old(tree), plan)
          && (forall move <- plan.moves :: move.to != [])
          && tree == Executed(old(tree), plan)
          && rows == UpdateRows(old(rows), plan.moves)
          && item == old(item).(path := plan.target)
      ensures forall plan :: Planned(old(tree), old(rows), old(item), plan) && old(item.matched) ==>
          (result.Ok? <==> !old(locked) && writable && CanExecute(old(tree), plan) && !Strikes(plan, fault))
    {
      hide Relocate, WellFormed, CanMoveAll, MovedAll, CanRelocate, UpdateRows, MovePlanned, Planned;
      if locked {
        return Err(Busy);
      }
      locked := true;
      result := RenameLocked(writable, fault);
      locked := false;
    }
  }

  /** A plan needs a folder and files that are there. */
  lemma PlanNeeds(t: Tree, rows: Rows, item: Item, plan: Plan)
    requires Known(rows, item) && Planned(t, rows, item, plan)
    ensures item.files != [] && IsFolder(t, item.path) && forall id <- item.files :: IsFile(t, rows[id].path)
  {
    forall id <- item.files
      ensures IsFile(t, rows[id].path)
    {
      var k :| 0 <= k < |item.files| && item.files[k] == id;
      assert MovePlanned(t, rows[item.files[k]], plan.target, plan.moves[..k], plan.moves[k]);
    }
  }

  lemma PlanFacts(t: Tree, rows: Rows, item: Item, plan: Plan)
    requires Known(rows, item) && Planned(t, rows, item, plan)
    ensures forall move <- plan.moves :: move.to != []
    ensures forall move <- plan.moves :: move.to in t ==> move.to == move.from
  {
    hide MovePlanned;
    forall move <- plan.moves
      ensures move.to != [] && (move.to in t ==> move.to == move.from)
    {
      var j :| 0 <= j < |plan.moves| && plan.moves[j] == move;
      PlanGuarantees(t, rows, item, plan, j);
    }
  }

  lemma TakenCannotStart(t: Tree, plan: Plan)
    requires plan.MovesFolder() && plan.target in t
    ensures !CanStart(t, plan)
  {
  }

  /** A rename to a free name either relocates or fails. */
  lemma OsRenameToFreeName(t: Tree, from: Path, to: Path)
    requires WellFormed(t) && to !in t
    ensures OsRename(t, from, to) == if CanRelocate(t, from, to) then Done(Relocate(t, from, to)) else Failed
  {
    hide Relocate;
  }

  /** Undoing a step is possible and restores the tree before it. */
  lemma UndoStep(before: Tree, source: Path, destination: Path)
    requires CanRelocate(before, source, destination)
    ensures var after := Relocate(before, source, destination);
            && WellFormed(after)
            && destination in after && source !in after
            && OsRename(after, destination, source) == Done(before)
  {
    hide Relocate;
    RelocateWellFormed(before, source, destination);
    RelocateBack(before, source, destination);
    OsRenameToFreeName(Relocate(before, source, destination), destination, source);
  }

  lemma TrailStarts(tree: Tree)
    requires WellFormed(tree)
    ensures Trail([], [tree])
  {
  }

  /** The moves planned for the first files. */
  ghost predicate MovesPlanned(t: Tree, rows: Rows, files: seq<FileId>, target: Path, moves: seq<FileMove>)
    requires forall id <- files :: id in rows
  {
    && |moves| == |files|
    && forall i :: 0 <= i < |moves| ==>
        && moves[i].id == files[i]
        && MovePlanned(t, rows[files[i]], target, moves[..i], moves[i])
  }

  lemma MovesPlannedGrows(
      t: Tree, rows: Rows, files: seq<FileId>, target: Path, moves: seq<FileMove>, id: FileId, move: FileMove)
    requires (forall id <- files :: id in rows) && id in rows
    requires MovesPlanned(t, rows, files, target, moves)
    requires move.id == id && MovePlanned(t, rows[id], target, moves, move)
    ensures MovesPlanned(t, rows, files + [id], target, moves + [move])
    ensures Destinations(moves + [move]) == Destinations(moves) + {move.to}
  {
    hide MovePlanned;
    assert (moves + [move])[..|moves|] == moves;
    assert forall i :: 0 <= i < |moves| ==> (moves + [move])[..i] == moves[..i];
  }

  lemma PlannedByChoice(t: Tree, row: FileRow, target: Path, earlier: seq<FileMove>, move: FileMove, n: nat)
    requires move.from == row.path && IsFile(t, move.from)
    requires n >= 1 && move.to == Candidate(target, row, n)
    requires !Occupied(t, Destinations(earlier), move.from, move.to)
    requires forall m :: 1 <= m < n ==> Occupied(t, Destinations(earlier), row.path, Candidate(target, row, m))
    ensures MovePlanned(t, row, target, earlier, move)
  {
  }

  lemma {:induction false} NoMoreMovesAfter(t: Tree, plan: Plan, k: nat, n: nat)
    requires k < n <= |plan.moves|
    requires CanMoveAll(t, plan, k) && !CanMove(MovedAll(t, plan, k), plan, plan.moves[k])
    ensures !CanMoveAll(t, plan, n)
  {
    hide CanMove;
    if n > k + 1 {
      NoMoreMovesAfter(t, plan, k, n - 1);
      hide MovedAll;
    }
  }

  lemma NoMoreMoves(t: Tree, plan: Plan, k: nat)
    requires k < |plan.moves|
    requires CanMoveAll(t, plan, k) && !CanMove(MovedAll(t, plan, k), plan, plan.moves[k])
    ensures !CanMoveAll(t, plan, |plan.moves|)
  {
    NoMoreMovesAfter(t, plan, k, |plan.moves|);
  }
}
