/** Planning a rename: where each file of a library item is to go. */
module RenamePlanning {
  import opened Collections
  import opened FileTree

  type FileId = string

  /** A file row. Its stem and extension are the safe name built from title, year, episode and resolution. */
  datatype FileRow = FileRow(path: Path, filename: string, stem: string, extension: string)

  type Rows = map<FileId, FileRow>

  /** A library item: its folder, the safe name of its target folder, and its active files by file name. */
  datatype Item = Item(path: Path, matched: bool, folderName: string, files: seq<FileId>)

  datatype FileMove = FileMove(from: Path, to: Path, id: FileId)

  datatype Plan = Plan(source: Path, target: Path, moves: seq<FileMove>) {
    predicate MovesFolder() {
      source != target
    }
  }

  // ----- numbered names -----

  function Digit(n: nat): char
    requires n < 10
  {
    "0123456789"[n]
  }

  function Decimal(n: nat): string {
    if n < 10 then [Digit(n)] else Decimal(n / 10) + [Digit(n % 10)]
  }

  lemma {:induction false} DecimalIsInjective(m: nat, n: nat)
    requires Decimal(m) == Decimal(n)
    ensures m == n
  {
    var last := |Decimal(m)| - 1;
    assert Decimal(m)[last] == Digit(m % 10) && Decimal(n)[last] == Digit(n % 10);
    if m >= 10 && n >= 10 {
      assert Decimal(m)[..last] == Decimal(m / 10) && Decimal(n)[..last] == Decimal(n / 10);
      DecimalIsInjective(m / 10, n / 10);
    }
  }

  /** The number that decimal digits spell. */
  ghost function Spelled(digits: string): int {
    if digits == "" then 0
    else 10 * Spelled(digits[..|digits| - 1]) + digits[|digits| - 1] as int - '0' as int
  }

  /** Numbers are written in decimal digits, without leading zeros. */
  lemma {:induction false} DecimalSpells(n: nat)
    ensures Spelled(Decimal(n)) == n
    ensures Decimal(n) != "" && (forall c <- Decimal(n) :: '0' <= c <= '9')
    ensures Decimal(n)[0] == '0' ==> n == 0 && |Decimal(n)| == 1
  {
    DigitIs(n % 10);
    if n < 10 {
      assert [Digit(n)][..0] == "";
    } else {
      DecimalSpells(n / 10);
      var digits := Decimal(n);
      assert digits[..|digits| - 1] == Decimal(n / 10);
    }
  }

  lemma DigitIs(n: nat)
    requires n < 10
    ensures Digit(n) as int == '0' as int + n
  {
  }

  /** The n-th name tried for a file: the plain one first, then " - 2", " - 3" and so on. */
  function Candidate(target: Path, row: FileRow, n: nat): Path
    requires n >= 1
  {
    target + [if n == 1 then row.stem + row.extension else row.stem + (" - " + Decimal(n)) + row.extension]
  }

  lemma CandidatesDiffer(target: Path, row: FileRow, m: nat, n: nat)
    requires 1 <= m < n
    ensures Candidate(target, row, m) != Candidate(target, row, n)
  {
    var a, b := Candidate(target, row, m)[|target|], Candidate(target, row, n)[|target|];
    if m == 1 {
      assert |a| < |b|;
    } else if Decimal(m) == Decimal(n) {
      DecimalIsInjective(m, n);
    } else {
      assert a[..|a| - |row.extension|][|row.stem|..][3..] == Decimal(m);
      assert b[..|b| - |row.extension|][|row.stem|..][3..] == Decimal(n);
    }
  }

  /** A name cannot be taken if it is already planned for another file, or exists and is not the file itself. */
  predicate Occupied(t: Tree, used: set<Path>, source: Path, destination: Path) {
    destination in used || (destination in t && destination != source)
  }

  ghost function FirstCandidates(target: Path, row: FileRow, n: nat): set<Path> {
    if n == 0 then {} else FirstCandidates(target, row, n - 1) + {Candidate(target, row, n)}
  }

  lemma {:induction false} CandidatesCount(target: Path, row: FileRow, n: nat)
    ensures |FirstCandidates(target, row, n)| == n
    ensures forall p <- FirstCandidates(target, row, n) :: exists m :: 1 <= m <= n && p == Candidate(target, row, m)
  {
    hide Candidate;
    if n > 0 {
      CandidatesCount(target, row, n - 1);
      if Candidate(target, row, n) in FirstCandidates(target, row, n - 1) {
        var m :| 1 <= m <= n - 1 && Candidate(target, row, n) == Candidate(target, row, m);
        CandidatesDiffer(target, row, m, n);
        assert false;
      }
    }
  }

  /** No more names can be occupied than there are names in use. */
  lemma OccupiedAreFew(t: Tree, used: set<Path>, source: Path, target: Path, row: FileRow, n: nat)
    requires forall m :: 1 <= m <= n ==> Occupied(t, used, source, Candidate(target, row, m))
    ensures n <= |used + t.Keys|
  {
    CandidatesCount(target, row, n);
    hide Candidate, FirstCandidates;
    SubsetIsSmaller(FirstCandidates(target, row, n), used + t.Keys);
  }

  /** The search for a free name ends: the names tried are distinct and only finitely many are occupied.
      It finds the first free one. */
  method ChooseDestination(t: Tree, used: set<Path>, target: Path, row: FileRow) returns (destination: Path, ghost n: nat)
    ensures n >= 1 && destination == Candidate(target, row, n)
    ensures !Occupied(t, used, row.path, destination)
    ensures forall m :: 1 <= m < n ==> Occupied(t, used, row.path, Candidate(target, row, m))
  {
    destination := target + [row.stem + row.extension];
    var duplicate := 2;
    while destination in used || (destination in t && destination != row.path)
      invariant duplicate >= 2 && destination == Candidate(target, row, duplicate - 1)
      invariant forall m :: 1 <= m < duplicate - 1 ==> Occupied(t, used, row.path, Candidate(target, row, m))
      decreases |used + t.Keys| + 2 - duplicate
    {
      OccupiedAreFew(t, used, row.path, target, row, duplicate - 1);
      destination := target + [row.stem + (" - " + Decimal(duplicate)) + row.extension];
      duplicate := duplicate + 1;
    }
    n := duplicate - 1;
  }

  // ----- the plan -----

  ghost predicate Known(rows: Rows, item: Item) {
    forall id <- item.files :: id in rows
  }

  ghost function Destinations(moves: seq<FileMove>): set<Path> {
    set move <- moves :: move.to
  }

  /** One planned move: the file keeps its row, goes into the target folder, and takes the first name
      that is neither planned for an earlier file nor taken by something else. */
  ghost predicate MovePlanned(t: Tree, row: FileRow, target: Path, earlier: seq<FileMove>, move: FileMove) {
    && move.from == row.path
    && IsFile(t, move.from)
    && exists n: nat ::
        && n >= 1
        && move.to == Candidate(target, row, n)
        && !Occupied(t, Destinations(earlier), move.from, move.to)
        && forall m :: 1 <= m < n ==> Occupied(t, Destinations(earlier), move.from, Candidate(target, row, m))
  }

  ghost predicate Planned(t: Tree, rows: Rows, item: Item, plan: Plan)
    requires Known(rows, item)
  {
    && plan.source == item.path && IsFolder(t, plan.source)
    && plan.target == [item.folderName]
    && |plan.moves| == |item.files| > 0
    && forall i :: 0 <= i < |plan.moves| ==>
        && plan.moves[i].id == item.files[i]
        && MovePlanned(t, rows[item.files[i]], plan.target, plan.moves[..i], plan.moves[i])
  }

  /** What every plan guarantees: a destination lies in the target folder, differs from every other, and is
      free unless the file is already there. */
  lemma PlanGuarantees(t: Tree, rows: Rows, item: Item, plan: Plan, j: nat)
    requires Known(rows, item) && Planned(t, rows, item, plan)
    requires j < |plan.moves|
    ensures forall i :: 0 <= i < |plan.moves| && i != j ==> plan.moves[i].to != plan.moves[j].to
    ensures plan.moves[j].to !in t || plan.moves[j].to == plan.moves[j].from
    ensures plan.moves[j].to != [] && Parent(plan.moves[j].to) == plan.target
    ensures IsFile(t, plan.moves[j].from)
  {
    assert MovePlanned(t, rows[item.files[j]], plan.target, plan.moves[..j], plan.moves[j]);
    forall i | 0 <= i < |plan.moves| && i != j
      ensures plan.moves[i].to != plan.moves[j].to
    {
      var a, b := if i < j then i else j, if i < j then j else i;
      assert MovePlanned(t, rows[item.files[b]], plan.target, plan.moves[..b], plan.moves[b]);
      assert plan.moves[..b][a] == plan.moves[a];
      assert plan.moves[a].to in Destinations(plan.moves[..b]);
    }
  }

  lemma ChoiceIsUnique(t: Tree, row: FileRow, target: Path, earlier: seq<FileMove>, a: FileMove, b: FileMove)
    requires MovePlanned(t, row, target, earlier, a) && MovePlanned(t, row, target, earlier, b)
    ensures a.from == b.from && a.to == b.to
  {
    hide Candidate, Occupied;
    var m: nat :| m >= 1 && a.to == Candidate(target, row, m)
                  && !Occupied(t, Destinations(earlier), a.from, a.to)
                  && forall i :: 1 <= i < m ==> Occupied(t, Destinations(earlier), a.from, Candidate(target, row, i));
    var n: nat :| n >= 1 && b.to == Candidate(target, row, n)
                  && !Occupied(t, Destinations(earlier), b.from, b.to)
                  && forall i :: 1 <= i < n ==> Occupied(t, Destinations(earlier), b.from, Candidate(target, row, i));
    assert m == n;
  }

  lemma {:induction false} SameMoves(t: Tree, rows: Rows, item: Item, p: Plan, q: Plan, k: nat)
    requires Known(rows, item)
    requires Planned(t, rows, item, p) && Planned(t, rows, item, q)
    requires k <= |item.files|
    ensures p.moves[..k] == q.moves[..k]
  {
    hide MovePlanned;
    if k > 0 {
      SameMoves(t, rows, item, p, q, k - 1);
      ChoiceIsUnique(t, rows[item.files[k - 1]], p.target, p.moves[..k - 1], p.moves[k - 1], q.moves[k - 1]);
    }
  }

  /** There is only one plan. */
  lemma PlanIsUnique(t: Tree, rows: Rows, item: Item, p: Plan, q: Plan)
    requires Known(rows, item)
    requires Planned(t, rows, item, p) && Planned(t, rows, item, q)
    ensures p == q
  {
    hide MovePlanned;
    SameMoves(t, rows, item, p, q, |item.files|);
    assert p.moves[..|item.files|] == p.moves && q.moves[..|item.files|] == q.moves;
  }
}
