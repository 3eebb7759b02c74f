/**
 * The filesystem object the program drives: `run`, `swap_locations`,
 * `swap_names` and `safe_rename` as methods that rename entries in place.
 */
module Engine {
  import opened Wrappers
  import opened Paths
  import opened Errors
  import opened FsModel
  import opened Planning
  import opened Moves
  import opened Gate

  /** The operating system's verdict on a rename that passed the deterministic checks. */
  type RenameOracle = (Path, Path) -> Option<IoErrorKind>

  /** The tree after a successful `fs::rename`. */
  ghost function Renamed(m: Tree, from: Path, to: Path): Tree
    requires WellFormed(m) && Movable(m, from, to) && (from == to || to !in m)
  {
    MoveTreeWellFormed(m, from, to);
    MoveTree(m, from, to)
  }

  /**
   * The outcome of the three moves of a plan: the first failing move is
   * reported as an I/O error on the path it was moving, with the tree left
   * as the earlier moves made it and nothing rolled back; if no move fails
   * the swap is complete.
   */
  ghost predicate SequenceOutcome(m: Tree, p1: Path, p2: Path, plan: Plan, os: RenameOracle,
                                  r: Outcome<SwapError>, m': Tree)
  {
    && PlanOk(m, p1, p2, plan)
    && var e1 := RenameError(m, p1, plan.temp, os);
       if e1.Some? then r == Fail(Io(e1.value, p1)) && m' == m
       else
         var e2 := RenameError(AfterMove1(m, p1, p2, plan), p2, plan.dest2, os);
         if e2.Some? then r == Fail(Io(e2.value, p2)) && m' == AfterMove1(m, p1, p2, plan)
         else
           var e3 := RenameError(AfterMove2(m, p1, p2, plan), plan.temp, plan.dest1, os);
           if e3.Some? then r == Fail(Io(e3.value, plan.temp)) && m' == AfterMove2(m, p1, p2, plan)
           else r == Pass && m' == AfterMove3(m, p1, p2, plan)
  }

  class FileSystem {
    var entries: Tree

    ghost predicate Valid()
      reads this
    {
      WellFormed(entries)
    }

    constructor (init: Tree)
      requires WellFormed(init)
      ensures Valid() && entries == init
    {
      entries := init;
    }

    /**
     * `fs::rename`: the deterministic failures of `RenameError`, then the
     * operating system's verdict; on success the subtree at `from` is at `to`.
     */
    method Rename(from: Path, to: Path, os: RenameOracle) returns (r: Option<IoErrorKind>)
      requires Valid()
      requires from == to || to !in entries
      modifies this
      ensures Valid()
      ensures r == RenameError(old(entries), from, to, os)
      ensures r.Some? ==> entries == old(entries)
      ensures r.None? ==> entries == Renamed(old(entries), from, to)
    {
      r := RenameError(entries, from, to, os);
      if r.None? {
        MoveTreeWellFormed(entries, from, to);
        entries := MoveTree(entries, from, to);
      }
    }

    /** `safe_rename`: a failed rename is reported against its source path. */
    method SafeRename(from: Path, to: Path, os: RenameOracle) returns (r: Outcome<SwapError>)
      requires Valid()
      requires from == to || to !in entries
      modifies this
      ensures Valid()
      ensures r.Fail? <==> RenameError(old(entries), from, to, os).Some?
      ensures r.Fail? ==> r.error == Io(RenameError(old(entries), from, to, os).value, from)
      ensures r.Fail? ==> entries == old(entries)
      ensures r.Pass? ==> entries == Renamed(old(entries), from, to)
    {
      var e := Rename(from, to, os);
      if e.Some? {
        return Fail(Io(e.value, from));
      }
      return Pass;
    }

    /**
     * The three `safe_rename` calls shared by both modes, each returning
     * early on failure: first operand to the pivot, second operand to its
     * destination, pivot to the first operand's destination.
     */
    method MoveThrough(p1: Path, p2: Path, plan: Plan, os: RenameOracle) returns (r: Outcome<SwapError>)
      requires Valid() && PlanOk(entries, p1, p2, plan)
      modifies this
      ensures Valid()
      ensures SequenceOutcome(old(entries), p1, p2, plan, os, r, entries)
    {
      ghost var m := entries;
      StepOneClear(m, p1, p2, plan);
      r := SafeRename(p1, plan.temp, os);
      if r.Fail? {
        return;
      }
      assert entries == AfterMove1(m, p1, p2, plan);
      StepTwoClear(m, p1, p2, plan);
      r := SafeRename(p2, plan.dest2, os);
      if r.Fail? {
        return;
      }
      assert entries == AfterMove2(m, p1, p2, plan);
      StepThreeClear(m, p1, p2, plan);
      r := SafeRename(plan.temp, plan.dest1, os);
      if r.Fail? {
        return;
      }
      assert entries == AfterMove3(m, p1, p2, plan);
    }

    /**
     * `swap_locations`: each entry moves into the other's parent directory
     * and keeps its own name.
     */
    method SwapLocations(p1: Path, p2: Path, id: string, os: RenameOracle) returns (r: Outcome<SwapError>)
      requires Valid()
      requires p1 != [] && p2 != [] ==> PlanOk(entries, p1, p2, LocationPlan(p1, p2, id).value)
      modifies this
      ensures Valid()
      ensures LocationPlan(p1, p2, id).Err? ==> r == Fail(LocationPlan(p1, p2, id).error) && entries == old(entries)
      ensures LocationPlan(p1, p2, id).Ok? ==>
        SequenceOutcome(old(entries), p1, p2, LocationPlan(p1, p2, id).value, os, r, entries)
    {
      var plan := LocationPlan(p1, p2, id);
      if plan.Err? {
        return Fail(plan.error);
      }
      r := MoveThrough(p1, p2, plan.value, os);
    }

    /**
     * `swap_names`: each entry stays in its own parent directory and takes
     * the other's name.
     */
    method SwapNames(p1: Path, p2: Path, id: string, os: RenameOracle) returns (r: Outcome<SwapError>)
      requires Valid()
      requires p1 != [] && p2 != [] ==> PlanOk(entries, p1, p2, NamePlan(p1, p2, id).value)
      modifies this
      ensures Valid()
      ensures NamePlan(p1, p2, id).Err? ==> r == Fail(NamePlan(p1, p2, id).error) && entries == old(entries)
      ensures NamePlan(p1, p2, id).Ok? ==>
        SequenceOutcome(old(entries), p1, p2, NamePlan(p1, p2, id).value, os, r, entries)
    {
      var plan := NamePlan(p1, p2, id);
      if plan.Err? {
        return Fail(plan.error);
      }
      r := MoveThrough(p1, p2, plan.value, os);
    }

    /**
     * `run`: validate, then dispatch on the mode. A refused pair leaves the
     * filesystem untouched; an accepted one is always two disjoint non-root
     * paths, so the swap never reports a missing parent.
     */
    method Run(user1: Path, user2: Path, mode: SwapMode, resolve: Resolver, id: string, os: RenameOracle)
      returns (r: Outcome<SwapError>)
      requires Valid()
      requires resolve(user1).Ok? ==> resolve(user1).value in entries
      requires resolve(user2).Ok? ==> resolve(user2).value in entries
      requires var v := Validate(entries, user1, user2, resolve);
        v.Ok? && PlanFor(mode, v.value.0, v.value.1, id).Ok? ==>
        TargetsFree(entries, v.value.0, v.value.1, PlanFor(mode, v.value.0, v.value.1, id).value)
      modifies this
      ensures Valid()
      ensures Validate(old(entries), user1, user2, resolve).Err? ==>
        r == Fail(Validate(old(entries), user1, user2, resolve).error) && entries == old(entries)
      ensures Validate(old(entries), user1, user2, resolve).Ok? ==>
        var (p1, p2) := Validate(old(entries), user1, user2, resolve).value;
        PlanFor(mode, p1, p2, id).Ok? &&
        SequenceOutcome(old(entries), p1, p2, PlanFor(mode, p1, p2, id).value, os, r, entries)
    {
      var v := Validate(entries, user1, user2, resolve);
      if v.Err? {
        return Fail(v.error);
      }
      var (p1, p2) := v.value;
      ValidatedSafe(entries, user1, user2, resolve);
      PlanShaped(mode, p1, p2, id);
      match mode
      case LocationSwap =>
        r := SwapLocations(p1, p2, id, os);
      case NameSwap =>
        r := SwapNames(p1, p2, id, os);
    }
  }
}
