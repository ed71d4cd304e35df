/** The media folder as a tree of paths, and what renaming a file or a folder does to it. */
module FileTree {
  /** The components of a path below the library root; [] is the root itself. */
  type Path = seq<string>

  datatype Node = Folder | File(content: string)

  type Tree = map<Path, Node>

  predicate IsFolder(t: Tree, p: Path) {
    p in t && t[p].Folder?
  }

  predicate IsFile(t: Tree, p: Path) {
    p in t && t[p].File?
  }

  function Parent(p: Path): Path
    requires p != []
  {
    p[..|p| - 1]
  }

  /** The root is a folder, and everything else lies in one. */
  ghost predicate WellFormed(t: Tree) {
    IsFolder(t, []) && forall p <- t :: p != [] ==> IsFolder(t, Parent(p))
  }

  /** Where a path leads once `from` has become `to`. */
  function Follow(p: Path, from: Path, to: Path): Path {
    if from <= p then to + p[|from|..] else p
  }

  /** A rename to a free name in an existing folder, not into itself. */
  ghost predicate CanRelocate(t: Tree, from: Path, to: Path) {
    && WellFormed(t)
    && from in t
    && to !in t && to != [] && IsFolder(t, Parent(to))
    && !(from <= to)
  }

  // ----- prefixes -----

  lemma {:induction false} AncestorsExist(t: Tree, ancestor: Path, p: Path)
    requires WellFormed(t)
    requires p in t && ancestor <= p
    ensures ancestor in t
    ensures ancestor < p ==> IsFolder(t, ancestor)
    decreases |p|
  {
    if ancestor != p {
      assert IsFolder(t, Parent(p));
      assert ancestor <= Parent(p);
      assert |ancestor| == |Parent(p)| ==> ancestor == Parent(p);
      AncestorsExist(t, ancestor, Parent(p));
    }
  }

  /** Nothing lies below a file. */
  lemma NothingBelowFile(t: Tree, file: Path, p: Path)
    requires WellFormed(t)
    requires IsFile(t, file) && p in t && file <= p
    ensures p == file
  {
    AncestorsExist(t, file, p);
  }

  lemma FollowBack(t: Tree, from: Path, to: Path, p: Path)
    requires CanRelocate(t, from, to)
    requires p in t
    ensures Follow(Follow(p, from, to), to, from) == p
  {
    if from <= p {
      var q := to + p[|from|..];
      assert q[|to|..] == p[|from|..];
      assert from + p[|from|..] == p;
    } else if to <= p {
      AncestorsExist(t, to, p);
    }
  }

  function Image(t: Tree, from: Path, to: Path): set<Path> {
    set p <- t :: Follow(p, from, to)
  }

  /** The tree after a rename: each node is found where its path now leads. */
  function Relocate(t: Tree, from: Path, to: Path): Tree
    requires CanRelocate(t, from, to)
  {
    RelocateIsTotal(t, from, to);
    map q <- Image(t, from, to) :: t[Follow(q, to, from)]
  }

  lemma RelocateIsTotal(t: Tree, from: Path, to: Path)
    requires CanRelocate(t, from, to)
    ensures forall q <- Image(t, from, to) :: Follow(q, to, from) in t
  {
    forall q <- Image(t, from, to)
      ensures Follow(q, to, from) in t
    {
      var p :| p in t && q == Follow(p, from, to);
      FollowBack(t, from, to, p);
    }
  }

  /** A rename loses nothing and overwrites nothing: every node is found, unchanged, where its path leads,
      every node found afterwards was there before, and no two nodes share a path. */
  lemma RelocateMoves(t: Tree, from: Path, to: Path)
    requires CanRelocate(t, from, to)
    ensures var after := Relocate(t, from, to);
            && (forall p <- t :: Follow(p, from, to) in after && after[Follow(p, from, to)] == t[p])
            && (forall q <- after :: Follow(q, to, from) in t && Follow(Follow(q, to, from), from, to) == q)
            && (forall p, q :: p in t && q in t && Follow(p, from, to) == Follow(q, from, to) ==> p == q)
  {
    forall p <- t
      ensures Follow(Follow(p, from, to), to, from) == p
    {
      FollowBack(t, from, to, p);
    }
  }

  /** A path is taken after a rename exactly if it leads, the other way, to a path that was taken
      and is not the old name of something else. */
  lemma RelocateKeys(t: Tree, from: Path, to: Path, q: Path)
    requires CanRelocate(t, from, to)
    ensures q in Relocate(t, from, to)
            <==> Follow(q, to, from) in t && Follow(Follow(q, to, from), from, to) == q
  {
    RelocateMoves(t, from, to);
  }

  /** The parent's path leads to the parent of where the path leads. */
  lemma FollowParent(from: Path, to: Path, p: Path)
    requires p != [] && to != [] && p != from
    ensures Follow(p, from, to) != []
    ensures Parent(Follow(p, from, to)) == Follow(Parent(p), from, to)
  {
    if from <= p {
      assert from <= Parent(p);
      assert Parent(p)[|from|..] == Parent(p[|from|..]);
    } else {
      assert from <= Parent(p) ==> from <= p;
    }
  }

  lemma ParentIsOutside(from: Path, to: Path)
    requires to != [] && !(from <= to)
    ensures Follow(Parent(to), from, to) == Parent(to)
  {
    assert from <= Parent(to) ==> from <= to;
  }

  lemma RelocateWellFormed(t: Tree, from: Path, to: Path)
    requires CanRelocate(t, from, to)
    ensures WellFormed(Relocate(t, from, to))
  {
    hide Follow, Relocate;
    var after := Relocate(t, from, to);
    RelocateMoves(t, from, to);
    ParentIsOutside(from, to);
    assert Follow([], from, to) == [] by { RootStays(from, to); }
    forall q <- after | q != []
      ensures IsFolder(after, Parent(q))
    {
      var p := Follow(q, to, from);
      assert p in t && Follow(p, from, to) == q;
      if p == from {
        NewName(from, to);
        assert IsFolder(t, Parent(to));
      } else if p == [] {
        RootStays(from, to);
      } else {
        FollowParent(from, to, p);
        assert IsFolder(t, Parent(p));
      }
    }
  }

  lemma RootStays(from: Path, to: Path)
    requires !(from <= to)
    ensures Follow([], from, to) == []
  {
  }

  lemma NewName(from: Path, to: Path)
    ensures Follow(from, from, to) == to
  {
  }

  /** A rename can be undone by renaming back, and that restores the tree exactly. */
  lemma RelocateBack(t: Tree, from: Path, to: Path)
    requires CanRelocate(t, from, to)
    ensures CanRelocate(Relocate(t, from, to), to, from)
    ensures Relocate(Relocate(t, from, to), to, from) == t
  {
    hide Follow, Relocate;
    var after := Relocate(t, from, to);
    RelocateWellFormed(t, from, to);
    RelocateMoves(t, from, to);
    BackIsPossible(t, from, to);
    var back := Relocate(after, to, from);
    RelocateMoves(after, to, from);
    forall p
      ensures p in back <==> p in t
      ensures p in t ==> back[p] == t[p]
    {
      if p in t {
        FollowBack(t, from, to, p);
        assert back[Follow(Follow(p, from, to), to, from)] == after[Follow(p, from, to)];
      }
      assert p in back ==> Follow(p, from, to) in after;
      assert Follow(p, from, to) in after ==> Follow(Follow(p, from, to), to, from) in t;
      assert p in back ==> Follow(Follow(p, from, to), to, from) == p;
    }
  }

  lemma BackIsPossible(t: Tree, from: Path, to: Path)
    requires CanRelocate(t, from, to)
    ensures CanRelocate(Relocate(t, from, to), to, from)
  {
    hide Relocate;
    var after := Relocate(t, from, to);
    RelocateWellFormed(t, from, to);
    RelocateMoves(t, from, to);
    assert to <= from ==> to in t by {
      if to <= from { AncestorsExist(t, to, from); }
    }
    assert from != [];
    NewName(from, to);
    assert to in after;
    RelocateKeys(t, from, to, from);
    assert Follow(Parent(from), from, to) == Parent(from);
    assert IsFolder(t, Parent(from));
  }

  // ----- what the operating system does -----

  datatype OsReply = Failed | Done(tree: Tree)

  /** An empty folder can give way to another. */
  lemma EmptyFolderGives(t: Tree, from: Path, to: Path)
    requires WellFormed(t) && from in t && to in t && to != [] && !(from <= to) && IsFolder(t, Parent(to))
    requires forall p <- t :: to <= p ==> p == to
    ensures CanRelocate(t - {to}, from, to)
  {
    assert |Parent(to)| < |to|;
    forall p <- t - {to} | p != []
      ensures IsFolder(t - {to}, Parent(p))
    {
      assert Parent(p) <= p;
    }
  }

  /** A rename as the operating system performs it. It does not refuse to overwrite: a file replaces a file of
      the new name, and a folder replaces an empty folder. */
  function OsRename(t: Tree, from: Path, to: Path): OsReply
    requires WellFormed(t)
  {
    if from !in t || from <= to || to == [] || !IsFolder(t, Parent(to)) then
      Failed
    else if to !in t then
      Done(Relocate(t, from, to))
    else if t[from].File? && t[to].File? then
      Done((t - {from})[to := t[from]])
    else if t[from].Folder? && t[to].Folder? && forall p <- t :: to <= p ==> p == to then
      EmptyFolderGives(t, from, to);
      Done(Relocate(t - {to}, from, to))
    else
      Failed
  }

  /** A node gives its name to another: a file to a file, and an empty folder to a folder. */
  ghost predicate GivesWay(t: Tree, from: Path, to: Path) {
    || (IsFile(t, from) && IsFile(t, to))
    || (IsFolder(t, from) && IsFolder(t, to) && forall p <- t :: to <= p ==> p == to)
  }

  /** Every node but the replaced one is found where its path leads, and nothing else is found. */
  ghost predicate MovesAllBut(t: Tree, from: Path, to: Path, after: Tree) {
    && (forall p <- t :: p != to ==> Follow(p, from, to) in after && after[Follow(p, from, to)] == t[p])
    && (forall q <- after :: exists p <- t :: p != to && Follow(p, from, to) == q)
  }

  /** The rename succeeds exactly if there is something to rename, the new name is in an existing folder, not inside what
      is renamed, and free or given way; and then it moves everything below the old name, leaves everything else, and
      loses only what gave way. */
  lemma OsRenameMeans(t: Tree, from: Path, to: Path)
    requires WellFormed(t)
    ensures OsRename(t, from, to).Done? <==>
              && from in t && !(from <= to) && to != [] && IsFolder(t, Parent(to))
              && (to in t ==> GivesWay(t, from, to))
    ensures OsRename(t, from, to).Done? ==> MovesAllBut(t, from, to, OsRename(t, from, to).tree)
  {
    if OsRename(t, from, to).Done? {
      if to !in t {
        RelocatedAll(t, t, from, to);
      } else if t[from].File? {
        ReplacesFile(t, from, to);
      } else {
        EmptyFolderGives(t, from, to);
        RelocatedAll(t, t - {to}, from, to);
      }
    }
    hide MovesAllBut, Relocate, Follow;
  }

  lemma RelocatedAll(t: Tree, rest: Tree, from: Path, to: Path)
    requires CanRelocate(rest, from, to) && rest == t - {to}
    ensures MovesAllBut(t, from, to, Relocate(rest, from, to))
  {
    hide Follow, CanRelocate, Relocate;
    RelocateMoves(rest, from, to);
  }

  lemma ReplacesFile(t: Tree, from: Path, to: Path)
    requires WellFormed(t) && IsFile(t, from) && IsFile(t, to) && from != to
    ensures MovesAllBut(t, from, to, (t - {from})[to := t[from]])
  {
    var after := (t - {from})[to := t[from]];
    forall p <- t | p != to
      ensures Follow(p, from, to) == if p == from then to else p
    {
      if from <= p {
        NothingBelowFile(t, from, p);
      }
    }
    forall q <- after
      ensures exists p <- t :: p != to && Follow(p, from, to) == q
    {
      if q == to {
        assert Follow(from, from, to) == q;
      } else {
        assert Follow(q, from, to) == q;
      }
    }
  }
}
