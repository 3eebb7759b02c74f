/**
 * The three-move sequence shared by `swap_locations` and `swap_names`:
 * first operand to the pivot, second operand to its destination, pivot to
 * the first operand's destination. This module states the filesystem after
 * each move and proves where every entry ends up.
 */
module Moves {
  import opened Wrappers
  import opened Paths
  import opened Errors
  import opened FsModel
  import opened Planning

  /** A destination is free when it is vacant or one of the two operands (moved away first). */
  predicate Free(m: Tree, p1: Path, p2: Path, d: Path) {
    d == p1 || d == p2 || d !in m
  }

  /**
   * The pivot collides with nothing (the unique id is fresh) and neither
   * destination is occupied by a third entry: rename's overwrite behaviour
   * is never exercised.
   */
  predicate TargetsFree(m: Tree, p1: Path, p2: Path, plan: Plan) {
    && plan.temp !in m && plan.temp != plan.dest1 && plan.temp != plan.dest2
    && Free(m, p1, p2, plan.dest1) && Free(m, p1, p2, plan.dest2)
  }

  /** Everything the sequence needs: a tree, two disjoint operands in it, a shaped plan with free targets. */
  ghost predicate PlanOk(m: Tree, p1: Path, p2: Path, plan: Plan) {
    && WellFormed(m) && p1 in m && p2 in m && Disjoint(p1, p2)
    && Shaped(p1, p2, plan) && TargetsFree(m, p1, p2, plan)
  }

  /** A child of either operand's parent directory: the pivot and both destinations. */
  predicate Slot(p1: Path, p2: Path, x: Path)
    requires |p1| > 0 && |p2| > 0
  {
    |x| > 0 && (ParentDir(x) == ParentDir(p1) || ParentDir(x) == ParentDir(p2))
  }

  /**
   * Where the entry at `p` is once the subtree at `p1` went to `d1` and the
   * subtree at `p2` went to `d2`.
   */
  function SwapDest(p: Path, p1: Path, p2: Path, d1: Path, d2: Path): Path {
    if StartsWith(p, p1) then Rebase(p, p1, d1)
    else if StartsWith(p, p2) then Rebase(p, p2, d2)
    else p
  }

  /** Where the entry now at `q` came from: the inverse of `SwapDest`. */
  function SwapSource(q: Path, p1: Path, p2: Path, d1: Path, d2: Path): Path {
    if StartsWith(q, d1) then Rebase(q, d1, p1)
    else if StartsWith(q, d2) then Rebase(q, d2, p2)
    else q
  }

  // ---------------------------------------------------------------- path facts

  /** A proper ancestor of a slot is an existing directory outside both operands. */
  lemma SlotAncestor(m: Tree, p1: Path, p2: Path, x: Path, a: Path)
    requires WellFormed(m) && p1 in m && p2 in m && Disjoint(p1, p2)
    requires Slot(p1, p2, x) && StartsWith(x, a) && a != x
    ensures a in m && a != p1 && a != p2
    ensures !StartsWith(a, p1) && !StartsWith(a, p2)
  {
    ProperPrefixOfParent(x, a);
    var dir := ParentDir(x);
    AncestorPresent(m, p1, ParentDir(p1));
    AncestorPresent(m, p2, ParentDir(p2));
    AncestorPresent(m, dir, a);
    OperandNotAbove(p1, p2, dir, a);
  }

  lemma OperandNotAbove(p1: Path, p2: Path, dir: Path, a: Path)
    requires |p1| > 0 && |p2| > 0 && Disjoint(p1, p2)
    requires dir == ParentDir(p1) || dir == ParentDir(p2)
    requires StartsWith(dir, a)
    ensures !StartsWith(a, p1) && !StartsWith(a, p2)
  {
    assert StartsWith(p1, ParentDir(p1)) && StartsWith(p2, ParentDir(p2));
    if StartsWith(a, p1) {
      StartsWithTransitive(dir, a, p1);
      if dir == ParentDir(p2) {
        StartsWithTransitive(p2, dir, p1);
      }
    }
    if StartsWith(a, p2) {
      StartsWithTransitive(dir, a, p2);
      if dir == ParentDir(p1) {
        StartsWithTransitive(p1, dir, p2);
      }
    }
  }

  /** Two distinct free slots never contain each other. */
  lemma SlotsDisjoint(m: Tree, p1: Path, p2: Path, x: Path, y: Path)
    requires WellFormed(m) && p1 in m && p2 in m && Disjoint(p1, p2)
    requires Slot(p1, p2, x) && Slot(p1, p2, y) && x != y
    requires Free(m, p1, p2, x) && Free(m, p1, p2, y)
    ensures Disjoint(x, y)
  {
    if StartsWith(y, x) {
      SlotAncestor(m, p1, p2, y, x);
    }
    if StartsWith(x, y) {
      SlotAncestor(m, p1, p2, x, y);
    }
  }

  /** A vacant slot and an operand never contain each other. */
  lemma VacantSlotApart(m: Tree, p1: Path, p2: Path, x: Path, a: Path)
    requires WellFormed(m) && p1 in m && p2 in m && Disjoint(p1, p2)
    requires Slot(p1, p2, x) && x !in m && (a == p1 || a == p2)
    ensures Disjoint(x, a)
  {
    if StartsWith(x, a) {
      SlotAncestor(m, p1, p2, x, a);
    }
    if StartsWith(a, x) {
      AncestorPresent(m, a, x);
    }
  }

  lemma NotUnderBoth(q: Path, x: Path, y: Path)
    requires Disjoint(x, y)
    ensures !(StartsWith(q, x) && StartsWith(q, y))
  {
    if StartsWith(q, x) && StartsWith(q, y) {
      if |x| <= |y| {
        PrefixesComparable(q, x, y);
      } else {
        PrefixesComparable(q, y, x);
      }
    }
  }

  /** The separation facts every step of the sequence relies on. */
  lemma PlanFacts(m: Tree, p1: Path, p2: Path, plan: Plan)
    requires PlanOk(m, p1, p2, plan)
    ensures Disjoint(plan.temp, p1) && Disjoint(plan.temp, p2)
    ensures Disjoint(plan.temp, plan.dest1) && Disjoint(plan.temp, plan.dest2)
    ensures Disjoint(plan.dest1, plan.dest2)
    ensures NothingUnder(m, plan.temp)
    ensures ParentDir(p1) in m && m[ParentDir(p1)].Directory?
    ensures ParentDir(p2) in m && m[ParentDir(p2)].Directory?
    ensures !StartsWith(ParentDir(p1), p1) && !StartsWith(ParentDir(p1), p2)
    ensures !StartsWith(ParentDir(p2), p1) && !StartsWith(ParentDir(p2), p2)
    ensures plan.dest1 != p1 ==> Disjoint(plan.dest1, p1)
    ensures plan.dest1 != p2 ==> Disjoint(plan.dest1, p2)
    ensures plan.dest2 != p1 ==> Disjoint(plan.dest2, p1)
    ensures plan.dest2 != p2 ==> Disjoint(plan.dest2, p2)
  {
    var t, d1, d2 := plan.temp, plan.dest1, plan.dest2;
    VacantSlotApart(m, p1, p2, t, p1);
    VacantSlotApart(m, p1, p2, t, p2);
    SlotsDisjoint(m, p1, p2, t, d1);
    SlotsDisjoint(m, p1, p2, t, d2);
    SlotsDisjoint(m, p1, p2, d1, d2);
    VacantHasNothingUnder(m, t);
    AncestorPresent(m, p1, ParentDir(p1));
    AncestorPresent(m, p2, ParentDir(p2));
    OperandNotAbove(p1, p2, ParentDir(p1), ParentDir(p1));
    OperandNotAbove(p1, p2, ParentDir(p2), ParentDir(p2));
    if d1 !in m {
      VacantSlotApart(m, p1, p2, d1, p1);
      VacantSlotApart(m, p1, p2, d1, p2);
    }
    if d2 !in m {
      VacantSlotApart(m, p1, p2, d2, p1);
      VacantSlotApart(m, p1, p2, d2, p2);
    }
  }

  // ------------------------------------------------------- the three states

  lemma StepOneClear(m: Tree, p1: Path, p2: Path, plan: Plan)
    requires PlanOk(m, p1, p2, plan)
    ensures Movable(m, p1, plan.temp) && plan.temp !in m
    ensures NothingUnder(m, plan.temp)
    ensures WellFormed(MoveTree(m, p1, plan.temp))
  {
    PlanFacts(m, p1, p2, plan);
    MoveTreeWellFormed(m, p1, plan.temp);
  }

  /** The filesystem after move 1: the first operand parked at the pivot. */
  ghost function AfterMove1(m: Tree, p1: Path, p2: Path, plan: Plan): Tree
    requires PlanOk(m, p1, p2, plan)
  {
    StepOneClear(m, p1, p2, plan);
    MoveTree(m, p1, plan.temp)
  }

  lemma StepTwoClear(m: Tree, p1: Path, p2: Path, plan: Plan)
    requires PlanOk(m, p1, p2, plan)
    ensures WellFormed(AfterMove1(m, p1, p2, plan))
    ensures Movable(AfterMove1(m, p1, p2, plan), p2, plan.dest2)
    ensures plan.dest2 == p2 || plan.dest2 !in AfterMove1(m, p1, p2, plan)
  {
    var t, d2 := plan.temp, plan.dest2;
    StepOneClear(m, p1, p2, plan);
    PlanFacts(m, p1, p2, plan);
    var m1 := AfterMove1(m, p1, p2, plan);
    assert Moved(p2, p1, t) == p2;
    var x := ParentDir(d2);
    assert Moved(x, p1, t) == x;
    if StartsWith(d2, p2) && d2 != p2 {
      SlotAncestor(m, p1, p2, d2, p2);
    }
    if d2 != p2 && d2 in m1 {
      NotUnderBoth(d2, t, d2);
      var src := Moved(d2, t, p1);
      assert src == d2;
      RebaseFacts(d2, p1, t);
    }
  }

  /** The filesystem after move 2: the second operand at its destination. */
  ghost function AfterMove2(m: Tree, p1: Path, p2: Path, plan: Plan): Tree
    requires PlanOk(m, p1, p2, plan)
  {
    StepTwoClear(m, p1, p2, plan);
    MoveTreeWellFormed(AfterMove1(m, p1, p2, plan), p2, plan.dest2);
    MoveTree(AfterMove1(m, p1, p2, plan), p2, plan.dest2)
  }

  lemma StepThreeClear(m: Tree, p1: Path, p2: Path, plan: Plan)
    requires PlanOk(m, p1, p2, plan)
    ensures WellFormed(AfterMove2(m, p1, p2, plan))
    ensures Movable(AfterMove2(m, p1, p2, plan), plan.temp, plan.dest1)
    ensures plan.dest1 !in AfterMove2(m, p1, p2, plan)
  {
    StepTwoClear(m, p1, p2, plan);
    MoveTreeWellFormed(AfterMove1(m, p1, p2, plan), p2, plan.dest2);
    PlanFacts(m, p1, p2, plan);
    PivotAfterMove2(m, p1, p2, plan);
    ParentAfterMove2(m, p1, p2, plan, ParentDir(plan.dest1));
    DestOneVacant(m, p1, p2, plan);
  }

  lemma PivotAfterMove2(m: Tree, p1: Path, p2: Path, plan: Plan)
    requires PlanOk(m, p1, p2, plan)
    ensures plan.temp in AfterMove1(m, p1, p2, plan)
    ensures plan.temp in AfterMove2(m, p1, p2, plan)
    ensures AfterMove2(m, p1, p2, plan)[plan.temp] == m[p1]
  {
    var t := plan.temp;
    PlanFacts(m, p1, p2, plan);
    assert Rebase(p1, p1, t) == t;
    assert Moved(p1, p1, t) == t;
    assert Moved(t, p2, plan.dest2) == t;
  }

  /** An entry outside both operands stays put through moves 1 and 2. */
  lemma ParentAfterMove2(m: Tree, p1: Path, p2: Path, plan: Plan, y: Path)
    requires PlanOk(m, p1, p2, plan)
    requires y in m && !StartsWith(y, p1) && !StartsWith(y, p2)
    ensures y in AfterMove1(m, p1, p2, plan) && AfterMove1(m, p1, p2, plan)[y] == m[y]
    ensures y in AfterMove2(m, p1, p2, plan) && AfterMove2(m, p1, p2, plan)[y] == m[y]
  {
    assert Moved(y, p1, plan.temp) == y;
    assert Moved(y, p2, plan.dest2) == y;
  }

  lemma DestOneVacant(m: Tree, p1: Path, p2: Path, plan: Plan)
    requires PlanOk(m, p1, p2, plan)
    ensures plan.dest1 !in AfterMove2(m, p1, p2, plan)
  {
    PlanFacts(m, p1, p2, plan);
    StepTwoClear(m, p1, p2, plan);
    MoveTreeWellFormed(AfterMove1(m, p1, p2, plan), p2, plan.dest2);
    VacatedByTwoMoves(m, p1, plan.temp, p2, plan.dest2, plan.dest1);
  }

  /** The first destination is empty once both operands have moved away from it. */
  lemma VacatedByTwoMoves(m: Tree, p1: Path, t: Path, p2: Path, d2: Path, d1: Path)
    requires NothingUnder(m, t) && (d2 == p2 || NothingUnder(MoveTree(m, p1, t), d2))
    requires Disjoint(t, p1) && Disjoint(t, p2) && Disjoint(d1, d2) && Disjoint(t, d1) && Disjoint(p1, p2)
    requires d1 == p1 || d1 == p2 || d1 !in m
    ensures d1 !in MoveTree(MoveTree(m, p1, t), p2, d2)
  {
    var m1 := MoveTree(m, p1, t);
    MovedMembership(m, p1, t, d1);
    MovedMembership(m1, p2, d2, d1);
    assert Moved(d1, d2, p2) == d1;
    assert Moved(d1, t, p1) == d1;
    if d1 == p1 {
      assert Rebase(p1, p1, t) == t;
    } else if d1 == p2 {
      assert Rebase(p2, p2, d2) == d2;
    }
  }

  /** The filesystem after move 3: the pivot dissolved into the first operand's destination. */
  ghost function AfterMove3(m: Tree, p1: Path, p2: Path, plan: Plan): Tree
    requires PlanOk(m, p1, p2, plan)
  {
    StepThreeClear(m, p1, p2, plan);
    MoveTreeWellFormed(AfterMove2(m, p1, p2, plan), plan.temp, plan.dest1);
    MoveTree(AfterMove2(m, p1, p2, plan), plan.temp, plan.dest1)
  }

  // ------------------------------------------------------------ tracking

  /** Moves 1 and 2 take each entry to `SwapDest` with the pivot in place of the first destination. */
  lemma TrackTwo(m: Tree, p1: Path, p2: Path, plan: Plan, p: Path)
    requires PlanOk(m, p1, p2, plan) && p in m
    ensures Moved(Moved(p, p1, plan.temp), p2, plan.dest2) == SwapDest(p, p1, p2, plan.temp, plan.dest2)
  {
    var t := plan.temp;
    PlanFacts(m, p1, p2, plan);
    if StartsWith(p, p1) {
      RebaseFacts(p, p1, t);
      NotUnderBoth(Rebase(p, p1, t), t, p2);
    }
  }

  /** Move 3 completes the relocation of every entry. */
  lemma TrackThree(m: Tree, p1: Path, p2: Path, plan: Plan, p: Path)
    requires PlanOk(m, p1, p2, plan) && p in m
    ensures Moved(SwapDest(p, p1, p2, plan.temp, plan.dest2), plan.temp, plan.dest1)
         == SwapDest(p, p1, p2, plan.dest1, plan.dest2)
  {
    var t, d1, d2 := plan.temp, plan.dest1, plan.dest2;
    PlanFacts(m, p1, p2, plan);
    if StartsWith(p, p1) {
      RebaseFacts(p, p1, t);
      var a := Rebase(p, p1, t);
      assert a[|t|..] == p[|p1|..];
    } else if StartsWith(p, p2) {
      RebaseFacts(p, p2, d2);
      NotUnderBoth(Rebase(p, p2, d2), t, d2);
    }
  }

  /** `SwapSource` undoes `SwapDest` on every entry of the original tree. */
  lemma SourceOfDest(m: Tree, p1: Path, p2: Path, plan: Plan, p: Path)
    requires PlanOk(m, p1, p2, plan) && p in m
    ensures SwapSource(SwapDest(p, p1, p2, plan.dest1, plan.dest2), p1, p2, plan.dest1, plan.dest2) == p
  {
    var d1, d2 := plan.dest1, plan.dest2;
    PlanFacts(m, p1, p2, plan);
    if StartsWith(p, p1) {
      RebaseFacts(p, p1, d1);
    } else if StartsWith(p, p2) {
      RebaseFacts(p, p2, d2);
      NotUnderBoth(Rebase(p, p2, d2), d1, d2);
    } else {
      if StartsWith(p, d1) {
        AncestorPresent(m, p, d1);
        assert false;
      }
      if StartsWith(p, d2) {
        AncestorPresent(m, p, d2);
        assert false;
      }
    }
  }

  // ------------------------------------------------------- states reached

  /** After move 1 the first operand is parked at the pivot and nothing else has moved. */
  lemma Parked(m: Tree, p1: Path, p2: Path, plan: Plan)
    requires PlanOk(m, p1, p2, plan)
    ensures WellFormed(AfterMove1(m, p1, p2, plan))
    ensures plan.temp in AfterMove1(m, p1, p2, plan) && AfterMove1(m, p1, p2, plan)[plan.temp] == m[p1]
    ensures p1 !in AfterMove1(m, p1, p2, plan)
    ensures forall p :: p in m && !StartsWith(p, p1) ==> p in AfterMove1(m, p1, p2, plan) && AfterMove1(m, p1, p2, plan)[p] == m[p]
    ensures forall q :: q in AfterMove1(m, p1, p2, plan) && !StartsWith(q, plan.temp) ==> q in m && !StartsWith(q, p1)
  {
    PlanFacts(m, p1, p2, plan);
    StepOneClear(m, p1, p2, plan);
    MoveTreeRelocates(m, p1, plan.temp);
  }

  /**
   * After move 2 the first operand is still parked at the pivot, the second
   * is at its destination, and every entry outside both operands is untouched.
   */
  lemma HalfSwapped(m: Tree, p1: Path, p2: Path, plan: Plan)
    requires PlanOk(m, p1, p2, plan)
    ensures WellFormed(AfterMove2(m, p1, p2, plan))
    ensures plan.temp in AfterMove2(m, p1, p2, plan) && AfterMove2(m, p1, p2, plan)[plan.temp] == m[p1]
    ensures plan.dest2 in AfterMove2(m, p1, p2, plan) && AfterMove2(m, p1, p2, plan)[plan.dest2] == m[p2]
    ensures p1 in AfterMove2(m, p1, p2, plan) <==> p1 == plan.dest2
    ensures p2 in AfterMove2(m, p1, p2, plan) <==> p2 == plan.dest2
    ensures forall p :: p in m && !StartsWith(p, p1) && !StartsWith(p, p2) ==>
      p in AfterMove2(m, p1, p2, plan) && AfterMove2(m, p1, p2, plan)[p] == m[p]
    ensures forall q :: q in AfterMove2(m, p1, p2, plan) && !StartsWith(q, plan.temp) && !StartsWith(q, plan.dest2) ==>
      q in m && !StartsWith(q, p1) && !StartsWith(q, p2)
  {
    var t, d2 := plan.temp, plan.dest2;
    PlanFacts(m, p1, p2, plan);
    Parked(m, p1, p2, plan);
    StepTwoClear(m, p1, p2, plan);
    var m1 := AfterMove1(m, p1, p2, plan);
    MoveTreeWellFormed(m1, p2, d2);
    PivotAfterMove2(m, p1, p2, plan);
    if d2 == p2 {
      MoveTreeStays(m1, p2);
    } else {
      MoveTreeRelocates(m1, p2, d2);
    }
  }

  /**
   * After move 3 every entry of the original tree is at `SwapDest`, every
   * entry of the final tree came from `SwapSource`, and nothing remains at
   * or under the pivot.
   */
  lemma SwapCompleted(m: Tree, p1: Path, p2: Path, plan: Plan)
    requires PlanOk(m, p1, p2, plan)
    ensures WellFormed(AfterMove3(m, p1, p2, plan))
    ensures forall p {:trigger SwapDest(p, p1, p2, plan.dest1, plan.dest2)} :: p in m ==>
      && SwapDest(p, p1, p2, plan.dest1, plan.dest2) in AfterMove3(m, p1, p2, plan)
      && AfterMove3(m, p1, p2, plan)[SwapDest(p, p1, p2, plan.dest1, plan.dest2)] == m[p]
      && SwapSource(SwapDest(p, p1, p2, plan.dest1, plan.dest2), p1, p2, plan.dest1, plan.dest2) == p
    ensures forall q {:trigger SwapSource(q, p1, p2, plan.dest1, plan.dest2)} :: q in AfterMove3(m, p1, p2, plan) ==>
      && SwapSource(q, p1, p2, plan.dest1, plan.dest2) in m
      && SwapDest(SwapSource(q, p1, p2, plan.dest1, plan.dest2), p1, p2, plan.dest1, plan.dest2) == q
    ensures NothingUnder(AfterMove3(m, p1, p2, plan), plan.temp)
  {
    FinalWellFormed(m, p1, p2, plan);
    EntriesForward(m, p1, p2, plan);
    EntriesBackward(m, p1, p2, plan);
    PivotGone(m, p1, p2, plan);
  }

  lemma FinalWellFormed(m: Tree, p1: Path, p2: Path, plan: Plan)
    requires PlanOk(m, p1, p2, plan)
    ensures WellFormed(AfterMove3(m, p1, p2, plan))
  {
    StepThreeClear(m, p1, p2, plan);
    MoveTreeWellFormed(AfterMove2(m, p1, p2, plan), plan.temp, plan.dest1);
  }

  lemma EntriesForward(m: Tree, p1: Path, p2: Path, plan: Plan)
    requires PlanOk(m, p1, p2, plan)
    ensures forall p {:trigger SwapDest(p, p1, p2, plan.dest1, plan.dest2)} :: p in m ==>
      && SwapDest(p, p1, p2, plan.dest1, plan.dest2) in AfterMove3(m, p1, p2, plan)
      && AfterMove3(m, p1, p2, plan)[SwapDest(p, p1, p2, plan.dest1, plan.dest2)] == m[p]
      && SwapSource(SwapDest(p, p1, p2, plan.dest1, plan.dest2), p1, p2, plan.dest1, plan.dest2) == p
  {
    forall p | p in m
      ensures SwapDest(p, p1, p2, plan.dest1, plan.dest2) in AfterMove3(m, p1, p2, plan)
      ensures AfterMove3(m, p1, p2, plan)[SwapDest(p, p1, p2, plan.dest1, plan.dest2)] == m[p]
      ensures SwapSource(SwapDest(p, p1, p2, plan.dest1, plan.dest2), p1, p2, plan.dest1, plan.dest2) == p
    {
      ForwardOne(m, p1, p2, plan, p);
      SourceOfDest(m, p1, p2, plan, p);
    }
  }

  /** The three moves carry the entry at `p` to `SwapDest(p)`. */
  lemma ForwardOne(m: Tree, p1: Path, p2: Path, plan: Plan, p: Path)
    requires PlanOk(m, p1, p2, plan) && p in m
    ensures SwapDest(p, p1, p2, plan.dest1, plan.dest2) in AfterMove3(m, p1, p2, plan)
    ensures AfterMove3(m, p1, p2, plan)[SwapDest(p, p1, p2, plan.dest1, plan.dest2)] == m[p]
  {
    var t, d1, d2 := plan.temp, plan.dest1, plan.dest2;
    StepTwoClear(m, p1, p2, plan);
    StepThreeClear(m, p1, p2, plan);
    var m1 := AfterMove1(m, p1, p2, plan);
    var m2 := AfterMove2(m, p1, p2, plan);
    MoveTreeWellFormed(m1, p2, d2);
    MoveTreeWellFormed(m2, t, d1);
    var a := Moved(p, p1, t);
    assert a in m1 && m1[a] == m[p];
    var b := Moved(a, p2, d2);
    assert b in m2 && m2[b] == m[p];
    TrackTwo(m, p1, p2, plan, p);
    TrackThree(m, p1, p2, plan, p);
  }

  lemma EntriesBackward(m: Tree, p1: Path, p2: Path, plan: Plan)
    requires PlanOk(m, p1, p2, plan)
    ensures forall q {:trigger SwapSource(q, p1, p2, plan.dest1, plan.dest2)} :: q in AfterMove3(m, p1, p2, plan) ==>
      && SwapSource(q, p1, p2, plan.dest1, plan.dest2) in m
      && SwapDest(SwapSource(q, p1, p2, plan.dest1, plan.dest2), p1, p2, plan.dest1, plan.dest2) == q
  {
    forall q | q in AfterMove3(m, p1, p2, plan)
      ensures SwapSource(q, p1, p2, plan.dest1, plan.dest2) in m
      ensures SwapDest(SwapSource(q, p1, p2, plan.dest1, plan.dest2), p1, p2, plan.dest1, plan.dest2) == q
    {
      BackwardOne(m, p1, p2, plan, q);
    }
  }

  /** Every entry of the final tree was carried there from `SwapSource(q)`. */
  lemma BackwardOne(m: Tree, p1: Path, p2: Path, plan: Plan, q: Path)
    requires PlanOk(m, p1, p2, plan) && q in AfterMove3(m, p1, p2, plan)
    ensures SwapSource(q, p1, p2, plan.dest1, plan.dest2) in m
    ensures SwapDest(SwapSource(q, p1, p2, plan.dest1, plan.dest2), p1, p2, plan.dest1, plan.dest2) == q
  {
    var t, d1, d2 := plan.temp, plan.dest1, plan.dest2;
    StepTwoClear(m, p1, p2, plan);
    StepThreeClear(m, p1, p2, plan);
    var m1 := AfterMove1(m, p1, p2, plan);
    var m2 := AfterMove2(m, p1, p2, plan);
    MoveTreeWellFormed(m1, p2, d2);
    MoveTreeWellFormed(m2, t, d1);
    var c := Moved(q, d1, t);
    assert c in m2 && Moved(c, t, d1) == q;
    var b := Moved(c, d2, p2);
    assert b in m1 && Moved(b, p2, d2) == c;
    var a := Moved(b, t, p1);
    assert a in m && Moved(a, p1, t) == b;
    TrackTwo(m, p1, p2, plan, a);
    TrackThree(m, p1, p2, plan, a);
    SourceOfDest(m, p1, p2, plan, a);
  }

  lemma PivotGone(m: Tree, p1: Path, p2: Path, plan: Plan)
    requires PlanOk(m, p1, p2, plan)
    ensures NothingUnder(AfterMove3(m, p1, p2, plan), plan.temp)
  {
    PlanFacts(m, p1, p2, plan);
    EntriesBackward(m, p1, p2, plan);
    forall q | q in AfterMove3(m, p1, p2, plan)
      ensures !StartsWith(q, plan.temp)
    {
      NotUnderBoth(q, plan.temp, plan.dest1);
      NotUnderBoth(q, plan.temp, plan.dest2);
    }
  }

  /**
   * What a completed swap leaves behind: each destination holds its
   * operand's entry, every entry outside the operands is untouched, no entry
   * is created or lost, and the pivot is gone.
   */
  lemma SwapResult(m: Tree, p1: Path, p2: Path, plan: Plan)
    requires PlanOk(m, p1, p2, plan)
    ensures plan.dest1 in AfterMove3(m, p1, p2, plan) && AfterMove3(m, p1, p2, plan)[plan.dest1] == m[p1]
    ensures plan.dest2 in AfterMove3(m, p1, p2, plan) && AfterMove3(m, p1, p2, plan)[plan.dest2] == m[p2]
    ensures forall p :: p in m && !StartsWith(p, p1) && !StartsWith(p, p2) ==>
      p in AfterMove3(m, p1, p2, plan) && AfterMove3(m, p1, p2, plan)[p] == m[p]
    ensures forall q :: q in AfterMove3(m, p1, p2, plan) && !StartsWith(q, plan.dest1) && !StartsWith(q, plan.dest2) ==>
      q in m && !StartsWith(q, p1) && !StartsWith(q, p2)
    ensures plan.temp !in AfterMove3(m, p1, p2, plan)
    ensures |AfterMove3(m, p1, p2, plan)| == |m|
  {
    SwapCompleted(m, p1, p2, plan);
    RelocationFacts(m, AfterMove3(m, p1, p2, plan), p1, p2, plan.dest1, plan.dest2);
    assert StartsWith(plan.temp, plan.temp);
  }

  /** The consequences of a relocation by `SwapDest` with inverse `SwapSource`. */
  lemma RelocationFacts(m: Tree, f: Tree, p1: Path, p2: Path, d1: Path, d2: Path)
    requires p1 in m && p2 in m && Disjoint(p1, p2)
    requires forall p {:trigger SwapDest(p, p1, p2, d1, d2)} :: p in m ==>
      && SwapDest(p, p1, p2, d1, d2) in f && f[SwapDest(p, p1, p2, d1, d2)] == m[p]
      && SwapSource(SwapDest(p, p1, p2, d1, d2), p1, p2, d1, d2) == p
    requires forall q {:trigger SwapSource(q, p1, p2, d1, d2)} :: q in f ==>
      SwapSource(q, p1, p2, d1, d2) in m && SwapDest(SwapSource(q, p1, p2, d1, d2), p1, p2, d1, d2) == q
    ensures d1 in f && f[d1] == m[p1]
    ensures d2 in f && f[d2] == m[p2]
    ensures forall p :: p in m && !StartsWith(p, p1) && !StartsWith(p, p2) ==> p in f && f[p] == m[p]
    ensures forall q :: q in f && !StartsWith(q, d1) && !StartsWith(q, d2) ==>
      q in m && !StartsWith(q, p1) && !StartsWith(q, p2)
    ensures |f| == |m|
  {
    assert Rebase(p1, p1, d1) == d1;
    assert SwapDest(p1, p1, p2, d1, d2) == d1;
    assert Rebase(p2, p2, d2) == d2;
    assert SwapDest(p2, p1, p2, d1, d2) == d2;
    forall p | p in m && !StartsWith(p, p1) && !StartsWith(p, p2)
      ensures p in f && f[p] == m[p]
    {
      assert SwapDest(p, p1, p2, d1, d2) == p;
    }
    forall q | q in f && !StartsWith(q, d1) && !StartsWith(q, d2)
      ensures q in m && !StartsWith(q, p1) && !StartsWith(q, p2)
    {
      assert SwapSource(q, p1, p2, d1, d2) == q;
      MovedFacts(q, p1, d1);
      MovedFacts(q, p2, d2);
    }
    SameSize(m.Keys, f.Keys, p => SwapDest(p, p1, p2, d1, d2), q => SwapSource(q, p1, p2, d1, d2));
  }

  /** Two sets in bijection have the same size. */
  lemma {:induction false} SameSize(a: set<Path>, b: set<Path>, f: Path -> Path, g: Path -> Path)
    requires forall x :: x in a ==> f(x) in b && g(f(x)) == x
    requires forall y :: y in b ==> g(y) in a && f(g(y)) == y
    ensures |a| == |b|
    decreases |a|
  {
    if a != {} {
      var x :| x in a;
      SameSize(a - {x}, b - {f(x)}, f, g);
    }
  }

  // ------------------------------------------------------------ swapping back

  /**
   * Running the same swap again on the two new paths, with a pivot that is
   * fresh in the original tree, is admissible and restores it exactly.
   */
  lemma SwapTwiceRestores(m: Tree, mode: SwapMode, p1: Path, p2: Path, id: string, id': string)
    requires PlanFor(mode, p1, p2, id).Ok?
    requires PlanOk(m, p1, p2, PlanFor(mode, p1, p2, id).value)
    requires PlanFor(mode, PlanFor(mode, p1, p2, id).value.dest1, PlanFor(mode, p1, p2, id).value.dest2, id').Ok?
    requires var plan := PlanFor(mode, p1, p2, id).value;
      var back := PlanFor(mode, plan.dest1, plan.dest2, id').value;
      back.temp !in m && back.temp != plan.dest2
    ensures var plan := PlanFor(mode, p1, p2, id).value;
      var back := PlanFor(mode, plan.dest1, plan.dest2, id').value;
      && PlanOk(AfterMove3(m, p1, p2, plan), plan.dest1, plan.dest2, back)
      && AfterMove3(AfterMove3(m, p1, p2, plan), plan.dest1, plan.dest2, back) == m
  {
    var plan := PlanFor(mode, p1, p2, id).value;
    var back := PlanFor(mode, plan.dest1, plan.dest2, id').value;
    PlanRoundTrip(mode, p1, p2, id, id');
    PlanShaped(mode, plan.dest1, plan.dest2, id');
    BackAdmissible(m, p1, p2, plan, back);
    SwapBack(m, p1, p2, plan, back);
  }

  /** The reverse swap finds its operands in place and its targets free. */
  lemma BackAdmissible(m: Tree, p1: Path, p2: Path, plan: Plan, back: Plan)
    requires PlanOk(m, p1, p2, plan)
    requires Shaped(plan.dest1, plan.dest2, back) && back.dest1 == p1 && back.dest2 == p2
    requires back.temp !in m && back.temp != plan.dest2 && !StartsWith(back.temp, plan.dest1)
    ensures PlanOk(AfterMove3(m, p1, p2, plan), plan.dest1, plan.dest2, back)
  {
    PlanFacts(m, p1, p2, plan);
    SwapCompleted(m, p1, p2, plan);
    SwapResult(m, p1, p2, plan);
    SiblingPrefix(back.temp, plan.dest1, plan.dest2);
    assert SwapSource(back.temp, p1, p2, plan.dest1, plan.dest2) == back.temp;
    OperandsFreed(m, AfterMove3(m, p1, p2, plan), p1, p2, plan.dest1, plan.dest2);
  }

  /** After a relocation the old operand paths are vacant unless they are destinations. */
  lemma OperandsFreed(m: Tree, f: Tree, p1: Path, p2: Path, d1: Path, d2: Path)
    requires Disjoint(p1, p2)
    requires d1 != p1 ==> Disjoint(d1, p1)
    requires d1 != p2 ==> Disjoint(d1, p2)
    requires d2 != p1 ==> Disjoint(d2, p1)
    requires d2 != p2 ==> Disjoint(d2, p2)
    requires forall q {:trigger SwapSource(q, p1, p2, d1, d2)} :: q in f ==>
      SwapSource(q, p1, p2, d1, d2) in m && SwapDest(SwapSource(q, p1, p2, d1, d2), p1, p2, d1, d2) == q
    ensures Free(f, d1, d2, p1) && Free(f, d1, d2, p2)
  {
    if p1 != d1 && p1 != d2 {
      assert SwapSource(p1, p1, p2, d1, d2) == p1;
      assert Rebase(p1, p1, d1) == d1;
      assert SwapDest(p1, p1, p2, d1, d2) == d1;
    }
    if p2 != d1 && p2 != d2 {
      assert SwapSource(p2, p1, p2, d1, d2) == p2;
      assert Rebase(p2, p2, d2) == d2;
      assert SwapDest(p2, p1, p2, d1, d2) == d2;
    }
  }

  /** The reverse swap undoes the swap. */
  lemma SwapBack(m: Tree, p1: Path, p2: Path, plan: Plan, back: Plan)
    requires PlanOk(m, p1, p2, plan)
    requires PlanOk(AfterMove3(m, p1, p2, plan), plan.dest1, plan.dest2, back)
    requires back.dest1 == p1 && back.dest2 == p2
    ensures AfterMove3(AfterMove3(m, p1, p2, plan), plan.dest1, plan.dest2, back) == m
  {
    var f := AfterMove3(m, p1, p2, plan);
    SwapCompleted(m, p1, p2, plan);
    SwapCompleted(f, plan.dest1, plan.dest2, back);
    Involution(m, f, AfterMove3(f, plan.dest1, plan.dest2, back), p1, p2, plan.dest1, plan.dest2);
  }

  /** Relocating by `SwapDest` and then by its inverse gives back the original tree. */
  lemma Involution(m: Tree, f: Tree, g: Tree, p1: Path, p2: Path, d1: Path, d2: Path)
    requires forall p {:trigger SwapDest(p, p1, p2, d1, d2)} :: p in m ==>
      && SwapDest(p, p1, p2, d1, d2) in f && f[SwapDest(p, p1, p2, d1, d2)] == m[p]
      && SwapSource(SwapDest(p, p1, p2, d1, d2), p1, p2, d1, d2) == p
    requires forall q {:trigger SwapSource(q, p1, p2, d1, d2)} :: q in f ==>
      SwapSource(q, p1, p2, d1, d2) in m && SwapDest(SwapSource(q, p1, p2, d1, d2), p1, p2, d1, d2) == q
    requires forall q {:trigger SwapDest(q, d1, d2, p1, p2)} :: q in f ==>
      SwapDest(q, d1, d2, p1, p2) in g && g[SwapDest(q, d1, d2, p1, p2)] == f[q]
    requires forall k {:trigger SwapSource(k, d1, d2, p1, p2)} :: k in g ==>
      SwapSource(k, d1, d2, p1, p2) in f && SwapDest(SwapSource(k, d1, d2, p1, p2), d1, d2, p1, p2) == k
    ensures g == m
  {
    forall k | k in m
      ensures k in g && g[k] == m[k]
    {
      var q := SwapDest(k, p1, p2, d1, d2);
      assert SwapDest(q, d1, d2, p1, p2) == SwapSource(q, p1, p2, d1, d2);
    }
    forall k | k in g
      ensures k in m
    {
      var s := SwapSource(k, d1, d2, p1, p2);
      assert s == SwapDest(k, p1, p2, d1, d2);
      assert SwapDest(s, d1, d2, p1, p2) == SwapSource(s, p1, p2, d1, d2);
    }
  }
}
