/**
 * The filesystem the swap works on: a map from absolute paths to entries.
 * A directory's contents are the keys below it, so moving a directory moves
 * every key under it.
 */
module FsModel {
  import opened Wrappers
  import opened Paths
  import opened Errors

  /** A filesystem entry; the inode number identifies it wherever it lives. */
  datatype Entry =
    | File(inode: nat, data: seq<bv8>)
    | Directory(inode: nat)

  type Tree = map<Path, Entry>

  /** The root is a directory and every other entry sits in a directory. */
  ghost predicate WellFormed(m: Tree) {
    && [] in m && m[[]].Directory?
    && forall p {:trigger ParentDir(p)} :: p in m && |p| > 0 ==> ParentDir(p) in m && m[ParentDir(p)].Directory?
  }

  /** `Path::is_dir` on a resolved path (no symlinks are left to follow). */
  predicate IsDir(m: Tree, p: Path) {
    p in m && m[p].Directory?
  }

  /** No entry lives at `x` or below it. */
  ghost predicate NothingUnder(m: Tree, x: Path) {
    forall p :: p in m ==> !StartsWith(p, x)
  }

  /** Where an entry at `p` is after the subtree at `from` moves to `to`. */
  function Moved(p: Path, from: Path, to: Path): Path {
    if StartsWith(p, from) then Rebase(p, from, to) else p
  }

  /** Every ancestor of an entry exists, and is a directory. */
  lemma {:induction false} AncestorPresent(m: Tree, q: Path, a: Path)
    requires WellFormed(m) && q in m && StartsWith(q, a)
    ensures a in m
    ensures a != q ==> m[a].Directory?
    decreases |q|
  {
    if a != q {
      ProperPrefixOfParent(q, a);
      if ParentDir(q) != a {
        AncestorPresent(m, ParentDir(q), a);
      }
    }
  }

  /** Every proper ancestor of an entry is a directory of the tree. */
  lemma AncestorsAreDirectories(m: Tree, q: Path)
    requires WellFormed(m) && q in m
    ensures forall a :: StartsWith(q, a) && a != q ==> IsDir(m, a)
  {
    forall a | StartsWith(q, a) && a != q
      ensures IsDir(m, a)
    {
      AncestorPresent(m, q, a);
    }
  }

  lemma VacantHasNothingUnder(m: Tree, x: Path)
    requires WellFormed(m) && x !in m
    ensures NothingUnder(m, x)
  {
    forall p | p in m
      ensures !StartsWith(p, x)
    {
      if StartsWith(p, x) {
        AncestorPresent(m, p, x);
      }
    }
  }

  /**
   * The map after the subtree at `from` has been moved to `to`: each entry
   * moves to `Moved(p, from, to)` and keeps its value, and every key of the
   * result comes from exactly one key of `m`.
   */
  function MoveTree(m: Tree, from: Path, to: Path): (r: Tree)
    requires from == to || NothingUnder(m, to)
    ensures forall p {:trigger Moved(p, from, to)} :: p in m ==>
      Moved(p, from, to) in r && r[Moved(p, from, to)] == m[p] && Moved(Moved(p, from, to), to, from) == p
    ensures forall q {:trigger Moved(q, to, from)} :: q in r ==>
      Moved(q, to, from) in m && Moved(Moved(q, to, from), from, to) == q
  {
    var keys := set p | p in m :: Moved(p, from, to);
    var r := map q | q in keys && Moved(q, to, from) in m :: m[Moved(q, to, from)];
    assert forall p :: p in m ==>
      Moved(p, from, to) in r && r[Moved(p, from, to)] == m[p] && Moved(Moved(p, from, to), to, from) == p
    by {
      forall p | p in m
        ensures Moved(p, from, to) in r && r[Moved(p, from, to)] == m[p] && Moved(Moved(p, from, to), to, from) == p
      {
        MovedBack(m, from, to, p);
      }
    }
    assert forall q :: q in r ==> Moved(q, to, from) in m && Moved(Moved(q, to, from), from, to) == q by {
      forall q | q in r
        ensures Moved(q, to, from) in m && Moved(Moved(q, to, from), from, to) == q
      {
        var p :| p in m && Moved(p, from, to) == q;
        MovedBack(m, from, to, p);
      }
    }
    r
  }

  /** What a move does to one path, stated for paths inside and outside the moved subtree. */
  lemma MovedFacts(p: Path, from: Path, to: Path)
    ensures StartsWith(p, from) ==> StartsWith(Moved(p, from, to), to) && Moved(Moved(p, from, to), to, from) == p
    ensures !StartsWith(p, from) ==> Moved(p, from, to) == p
  {
    if StartsWith(p, from) {
      RebaseFacts(p, from, to);
    }
  }

  /**
   * A rename to a vacant place moves exactly the subtree at `from`: its root
   * is at `to`, `from` is gone, and every other entry stays where it was.
   */
  lemma MoveTreeRelocates(m: Tree, from: Path, to: Path)
    requires from in m && Disjoint(from, to) && NothingUnder(m, to)
    ensures to in MoveTree(m, from, to) && MoveTree(m, from, to)[to] == m[from]
    ensures from !in MoveTree(m, from, to)
    ensures forall p :: p in m && !StartsWith(p, from) ==> p in MoveTree(m, from, to) && MoveTree(m, from, to)[p] == m[p]
    ensures forall q :: q in MoveTree(m, from, to) && !StartsWith(q, to) ==> q in m && !StartsWith(q, from)
  {
    var r := MoveTree(m, from, to);
    assert Rebase(from, from, to) == to;
    MovedFacts(from, from, to);
    MovedFacts(from, to, from);
    MovedMembership(m, from, to, from);
    forall p | p in m && !StartsWith(p, from)
      ensures p in r && r[p] == m[p]
    {
      MovedFacts(p, from, to);
    }
    forall q | q in r && !StartsWith(q, to)
      ensures q in m && !StartsWith(q, from)
    {
      MovedFacts(q, to, from);
      MovedFacts(q, from, to);
    }
  }

  /** Renaming a path onto itself changes nothing. */
  lemma MoveTreeStays(m: Tree, x: Path)
    ensures MoveTree(m, x, x) == m
  {
    var r := MoveTree(m, x, x);
    forall p | p in m
      ensures Moved(p, x, x) == p
    {
      if StartsWith(p, x) {
        RebaseSelf(p, x);
      }
    }
    forall q | q in r
      ensures Moved(q, x, x) == q
    {
      if StartsWith(q, x) {
        RebaseSelf(q, x);
      }
    }
  }

  /** Membership in a moved tree, in both directions. */
  lemma MovedMembership(m: Tree, from: Path, to: Path, q: Path)
    requires from == to || NothingUnder(m, to)
    ensures q in MoveTree(m, from, to) <==> Moved(q, to, from) in m && Moved(Moved(q, to, from), from, to) == q
  {
  }

  lemma MovedBack(m: Tree, from: Path, to: Path, p: Path)
    requires from == to || NothingUnder(m, to)
    requires p in m
    ensures Moved(Moved(p, from, to), to, from) == p
  {
    if StartsWith(p, from) {
      RebaseFacts(p, from, to);
    } else if from == to {
    } else {
      assert !StartsWith(p, to);
    }
  }

  /**
   * What `rename(2)` needs besides permission: the source exists and is not
   * the root, the destination's parent is an existing directory, and the
   * destination does not lie strictly inside the source.
   */
  predicate Movable(m: Tree, from: Path, to: Path) {
    && from in m && |from| > 0 && |to| > 0
    && ParentDir(to) in m && m[ParentDir(to)].Directory?
    && (from == to || !StartsWith(to, from))
  }

  /**
   * The error `fs::rename(from, to)` reports, if any: the failures the
   * filesystem's shape forces, otherwise whatever the operating system
   * (`os`) decides for permissions, devices and the like.
   */
  function RenameError(m: Tree, from: Path, to: Path, os: (Path, Path) -> Option<IoErrorKind>): (r: Option<IoErrorKind>)
    ensures Movable(m, from, to) ==> r == os(from, to)
    ensures !Movable(m, from, to) ==> r.Some?
    ensures from !in m ==> r == Some(NotFound)
  {
    if from !in m then Some(NotFound)
    else if |from| == 0 || |to| == 0 then Some(ResourceBusy)
    else if ParentDir(to) !in m then Some(NotFound)
    else if !m[ParentDir(to)].Directory? then Some(NotADirectory)
    else if from != to && StartsWith(to, from) then Some(InvalidInput)
    else os(from, to)
  }

  /** A successful move onto a vacant destination keeps the tree well formed. */
  lemma MoveTreeWellFormed(m: Tree, from: Path, to: Path)
    requires WellFormed(m) && Movable(m, from, to)
    requires from == to || to !in m
    ensures from == to || NothingUnder(m, to)
    ensures WellFormed(MoveTree(m, from, to))
  {
    if from != to {
      VacantHasNothingUnder(m, to);
    }
    var r := MoveTree(m, from, to);
    assert Moved([], from, to) == [];
    forall q | q in r && |q| > 0
      ensures ParentDir(q) in r && r[ParentDir(q)].Directory?
    {
      var p := Moved(q, to, from);
      if StartsWith(p, from) {
        ParentAfterMove(m, from, to, p);
      } else {
        var y := ParentDir(p);
        if StartsWith(y, from) {
          StartsWithTransitive(p, y, from);
        }
      }
    }
  }

  lemma ParentAfterMove(m: Tree, from: Path, to: Path, p: Path)
    requires WellFormed(m) && Movable(m, from, to)
    requires from == to || NothingUnder(m, to)
    requires p in m && StartsWith(p, from)
    ensures |Rebase(p, from, to)| > 0
    ensures ParentDir(Rebase(p, from, to)) in MoveTree(m, from, to)
    ensures MoveTree(m, from, to)[ParentDir(Rebase(p, from, to))].Directory?
  {
    if |p| == |from| {
      SameLengthPrefix(p, from);
      assert Rebase(p, from, to) == to;
      DestinationParentStays(m, from, to);
    } else {
      InnerParentMoves(m, from, to, p);
    }
  }

  lemma DestinationParentStays(m: Tree, from: Path, to: Path)
    requires WellFormed(m) && Movable(m, from, to)
    requires from == to || NothingUnder(m, to)
    ensures ParentDir(to) in MoveTree(m, from, to)
    ensures MoveTree(m, from, to)[ParentDir(to)] == m[ParentDir(to)]
  {
    var x := ParentDir(to);
    if StartsWith(x, from) {
      StartsWithTransitive(to, x, from);
    }
    assert Moved(x, from, to) == x;
  }

  lemma InnerParentMoves(m: Tree, from: Path, to: Path, p: Path)
    requires WellFormed(m)
    requires from == to || NothingUnder(m, to)
    requires p in m && StartsWith(p, from) && |p| > |from|
    ensures |Rebase(p, from, to)| > 0
    ensures ParentDir(Rebase(p, from, to)) in MoveTree(m, from, to)
    ensures MoveTree(m, from, to)[ParentDir(Rebase(p, from, to))] == m[ParentDir(p)]
  {
    var y := ParentDir(p);
    assert StartsWith(y, from) by {
      assert y[..|from|] == p[..|from|];
    }
    assert y[|from|..] == p[|from|..|p| - 1];
    assert Rebase(y, from, to) == ParentDir(Rebase(p, from, to));
    assert Moved(y, from, to) == Rebase(y, from, to);
  }
}
