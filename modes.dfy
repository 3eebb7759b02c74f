/**
 * Where each entry ends up in each mode, and what the caller sees after the
 * three moves stop, whether they stop early or complete.
 */
module Modes {
  import opened Wrappers
  import opened Paths
  import opened Errors
  import opened FsModel
  import opened Planning
  import opened Moves
  import opened Engine

  /**
   * `swap_locations`: the first entry is now `parent2/name1` and the second
   * `parent1/name2`.
   */
  lemma LocationSwapExchangesDirectories(m: Tree, p1: Path, p2: Path, id: string)
    requires p1 != [] && p2 != []
    requires PlanOk(m, p1, p2, LocationPlan(p1, p2, id).value)
    ensures var f := AfterMove3(m, p1, p2, LocationPlan(p1, p2, id).value);
      && Join(ParentDir(p2), FileName(p1)) in f && f[Join(ParentDir(p2), FileName(p1))] == m[p1]
      && Join(ParentDir(p1), FileName(p2)) in f && f[Join(ParentDir(p1), FileName(p2))] == m[p2]
  {
    var plan := LocationPlan(p1, p2, id).value;
    SplitJoin(plan.dest1);
    SplitJoin(plan.dest2);
    SwapResult(m, p1, p2, plan);
  }

  /**
   * `swap_names`: the first entry is now `parent1/name2` and the second
   * `parent2/name1`.
   */
  lemma NameSwapExchangesNames(m: Tree, p1: Path, p2: Path, id: string)
    requires p1 != [] && p2 != []
    requires PlanOk(m, p1, p2, NamePlan(p1, p2, id).value)
    ensures var f := AfterMove3(m, p1, p2, NamePlan(p1, p2, id).value);
      && Join(ParentDir(p1), FileName(p2)) in f && f[Join(ParentDir(p1), FileName(p2))] == m[p1]
      && Join(ParentDir(p2), FileName(p1)) in f && f[Join(ParentDir(p2), FileName(p1))] == m[p2]
  {
    var plan := NamePlan(p1, p2, id).value;
    SplitJoin(plan.dest1);
    SplitJoin(plan.dest2);
    SwapResult(m, p1, p2, plan);
  }

  /**
   * Swapping the locations of two entries of one directory moves each back
   * where it was: the tree is unchanged.
   */
  lemma SiblingLocationSwapChangesNothing(m: Tree, p1: Path, p2: Path, id: string)
    requires p1 != [] && p2 != [] && ParentDir(p1) == ParentDir(p2)
    requires PlanOk(m, p1, p2, LocationPlan(p1, p2, id).value)
    ensures AfterMove3(m, p1, p2, LocationPlan(p1, p2, id).value) == m
  {
    var plan := LocationPlan(p1, p2, id).value;
    SplitJoin(p1);
    SplitJoin(p2);
    SplitJoin(plan.dest1);
    SplitJoin(plan.dest2);
    assert plan.dest1 == p1 && plan.dest2 == p2;
    SwapCompleted(m, p1, p2, plan);
    StaysPut(m, AfterMove3(m, p1, p2, plan), p1, p2);
  }

  /** A relocation taking each operand onto itself is the identity. */
  lemma StaysPut(m: Tree, f: Tree, p1: Path, p2: Path)
    requires forall p {:trigger SwapDest(p, p1, p2, p1, p2)} :: p in m ==>
      SwapDest(p, p1, p2, p1, p2) in f && f[SwapDest(p, p1, p2, p1, p2)] == m[p]
    requires forall q {:trigger SwapSource(q, p1, p2, p1, p2)} :: q in f ==>
      SwapSource(q, p1, p2, p1, p2) in m
    ensures f == m
  {
    forall k | k in m
      ensures k in f && f[k] == m[k]
    {
      MovedFacts(k, p1, p1);
      MovedFacts(k, p2, p2);
      if StartsWith(k, p1) {
        RebaseSelf(k, p1);
      } else if StartsWith(k, p2) {
        RebaseSelf(k, p2);
      }
      assert SwapDest(k, p1, p2, p1, p2) == k;
    }
    forall k | k in f
      ensures k in m
    {
      if StartsWith(k, p1) {
        RebaseSelf(k, p1);
      } else if StartsWith(k, p2) {
        RebaseSelf(k, p2);
      }
      assert SwapSource(k, p1, p2, p1, p2) == k;
    }
  }

  // The four ways the three moves can end, by the operating system's
  // verdict on each rename. On an admissible plan the checks `rename` makes
  // itself all pass, so every failure is the operating system's, and
  // nothing is rolled back.

  /** The first move fails: the error names the first operand and nothing has changed. */
  lemma StoppedAtFirstMove(m: Tree, p1: Path, p2: Path, plan: Plan, os: RenameOracle,
                           r: Outcome<SwapError>, m': Tree)
    requires PlanOk(m, p1, p2, plan) && os(p1, plan.temp).Some?
    ensures SequenceOutcome(m, p1, p2, plan, os, r, m') <==>
      r == Fail(Io(os(p1, plan.temp).value, p1)) && m' == m
  {
    StepOneClear(m, p1, p2, plan);
  }

  /**
   * The second move fails: the error names the second operand, which is
   * still in place, while the first entry is stranded at the pivot.
   */
  lemma StoppedAtSecondMove(m: Tree, p1: Path, p2: Path, plan: Plan, os: RenameOracle,
                            r: Outcome<SwapError>, m': Tree)
    requires PlanOk(m, p1, p2, plan)
    requires os(p1, plan.temp).None? && os(p2, plan.dest2).Some?
    ensures SequenceOutcome(m, p1, p2, plan, os, r, m') ==>
      && r == Fail(Io(os(p2, plan.dest2).value, p2))
      && WellFormed(m')
      && plan.temp in m' && m'[plan.temp] == m[p1] && p1 !in m'
      && p2 in m' && m'[p2] == m[p2]
  {
    PlanFacts(m, p1, p2, plan);
    StepOneClear(m, p1, p2, plan);
    StepTwoClear(m, p1, p2, plan);
    Parked(m, p1, p2, plan);
  }

  /**
   * The third move fails: the error names the pivot, which still holds the
   * first entry, while the second entry is already at its destination.
   */
  lemma StoppedAtThirdMove(m: Tree, p1: Path, p2: Path, plan: Plan, os: RenameOracle,
                           r: Outcome<SwapError>, m': Tree)
    requires PlanOk(m, p1, p2, plan)
    requires os(p1, plan.temp).None? && os(p2, plan.dest2).None? && os(plan.temp, plan.dest1).Some?
    ensures SequenceOutcome(m, p1, p2, plan, os, r, m') ==>
      && r == Fail(Io(os(plan.temp, plan.dest1).value, plan.temp))
      && WellFormed(m')
      && plan.temp in m' && m'[plan.temp] == m[p1]
      && plan.dest2 in m' && m'[plan.dest2] == m[p2]
  {
    StepOneClear(m, p1, p2, plan);
    StepTwoClear(m, p1, p2, plan);
    StepThreeClear(m, p1, p2, plan);
    HalfSwapped(m, p1, p2, plan);
  }

  /**
   * No move fails: the swap is complete, the pivot is gone, no entry was
   * created or lost, and every entry outside the operands is untouched.
   */
  lemma CompletedSwap(m: Tree, p1: Path, p2: Path, plan: Plan, os: RenameOracle,
                      r: Outcome<SwapError>, m': Tree)
    requires PlanOk(m, p1, p2, plan)
    requires os(p1, plan.temp).None? && os(p2, plan.dest2).None? && os(plan.temp, plan.dest1).None?
    ensures SequenceOutcome(m, p1, p2, plan, os, r, m') ==>
      && r == Pass
      && WellFormed(m')
      && plan.dest1 in m' && m'[plan.dest1] == m[p1]
      && plan.dest2 in m' && m'[plan.dest2] == m[p2]
      && plan.temp !in m' && |m'| == |m|
      && (forall p :: p in m && !StartsWith(p, p1) && !StartsWith(p, p2) ==> p in m' && m'[p] == m[p])
  {
    CompletedOutcome(m, p1, p2, plan, os, r, m');
    SwapCompleted(m, p1, p2, plan);
    SwapResult(m, p1, p2, plan);
  }

  /** When no rename fails, the sequence reports success and ends in the tree after move 3. */
  lemma CompletedOutcome(m: Tree, p1: Path, p2: Path, plan: Plan, os: RenameOracle,
                         r: Outcome<SwapError>, m': Tree)
    requires PlanOk(m, p1, p2, plan)
    requires os(p1, plan.temp).None? && os(p2, plan.dest2).None? && os(plan.temp, plan.dest1).None?
    ensures SequenceOutcome(m, p1, p2, plan, os, r, m') ==> r == Pass && m' == AfterMove3(m, p1, p2, plan)
  {
    StepOneClear(m, p1, p2, plan);
    StepTwoClear(m, p1, p2, plan);
    StepThreeClear(m, p1, p2, plan);
  }
}
