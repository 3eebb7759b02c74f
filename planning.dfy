/**
 * Path planning done before any move: the temporary pivot name
 * (`generate_temporary_path`) and the two final destinations of each mode
 * (the `parent.join(name)` steps of `swap_locations` and `swap_names`).
 */
module Planning {
  import opened Wrappers
  import opened Paths
  import opened Errors

  /** How the two entries are exchanged (`--name-swap` selects NameSwap). */
  datatype SwapMode = LocationSwap | NameSwap

  /**
   * The three paths a swap needs besides its operands: the pivot beside the
   * first operand and the final destinations of the first and second operand.
   */
  datatype Plan = Plan(temp: Path, dest1: Path, dest2: Path)

  /** The marker between the original name and the unique id. */
  const SWAP_MARKER: string := ".swap."

  /**
   * `generate_temporary_path`: a sibling of `p` named
   * `<name>.swap.<id>`, so it always differs from `p`; the root has no
   * parent to hold it.
   */
  function GenerateTemporaryPath(p: Path, id: string): (r: Result<Path, SwapError>)
    ensures r.Err? <==> p == []
    ensures r.Err? ==> r.error == MissingParent(p)
    ensures r.Ok? ==> |r.value| == |p| && ParentDir(r.value) == ParentDir(p)
    ensures r.Ok? ==> FileName(r.value) == FileName(p) + SWAP_MARKER + id
    ensures r.Ok? ==> r.value != p && !StartsWith(r.value, p) && !StartsWith(p, r.value)
  {
    match Parent(p)
    case None => Err(MissingParent(p))
    case Some(dir) =>
      var t := Join(dir, FileName(p) + SWAP_MARKER + id);
      assert FileName(t) != FileName(p) by {
        assert |FileName(t)| > |FileName(p)|;
      }
      Ok(t)
  }

  /**
   * The plan of `swap_locations`: each entry keeps its name and moves into
   * the other's parent directory. A missing parent is reported for the first
   * operand before the second.
   */
  function LocationPlan(p1: Path, p2: Path, id: string): (r: Result<Plan, SwapError>)
    ensures r.Err? <==> p1 == [] || p2 == []
    ensures p1 == [] ==> r == Err(MissingParent(p1))
    ensures p1 != [] && p2 == [] ==> r == Err(MissingParent(p2))
    ensures r.Ok? ==> r.value.temp == GenerateTemporaryPath(p1, id).value
    ensures r.Ok? ==> && |r.value.dest1| > 0 && ParentDir(r.value.dest1) == ParentDir(p2)
                      && FileName(r.value.dest1) == FileName(p1)
    ensures r.Ok? ==> && |r.value.dest2| > 0 && ParentDir(r.value.dest2) == ParentDir(p1)
                      && FileName(r.value.dest2) == FileName(p2)
  {
    match Parent(p1)
    case None => Err(MissingParent(p1))
    case Some(parent1) =>
      match Parent(p2)
      case None => Err(MissingParent(p2))
      case Some(parent2) =>
        var dest1 := Join(parent2, FileName(p1));
        var dest2 := Join(parent1, FileName(p2));
        match GenerateTemporaryPath(p1, id)
        case Err(e) => Err(e)
        case Ok(t) => Ok(Plan(t, dest1, dest2))
  }

  /**
   * The plan of `swap_names`: each entry stays in its own parent directory
   * and takes the other's name.
   */
  function NamePlan(p1: Path, p2: Path, id: string): (r: Result<Plan, SwapError>)
    ensures r.Err? <==> p1 == [] || p2 == []
    ensures p1 == [] ==> r == Err(MissingParent(p1))
    ensures p1 != [] && p2 == [] ==> r == Err(MissingParent(p2))
    ensures r.Ok? ==> r.value.temp == GenerateTemporaryPath(p1, id).value
    ensures r.Ok? ==> && |r.value.dest1| > 0 && ParentDir(r.value.dest1) == ParentDir(p1)
                      && FileName(r.value.dest1) == FileName(p2)
    ensures r.Ok? ==> && |r.value.dest2| > 0 && ParentDir(r.value.dest2) == ParentDir(p2)
                      && FileName(r.value.dest2) == FileName(p1)
  {
    match Parent(p1)
    case None => Err(MissingParent(p1))
    case Some(parent1) =>
      match Parent(p2)
      case None => Err(MissingParent(p2))
      case Some(parent2) =>
        var dest1 := Join(parent1, FileName(p2));
        var dest2 := Join(parent2, FileName(p1));
        match GenerateTemporaryPath(p1, id)
        case Err(e) => Err(e)
        case Ok(t) => Ok(Plan(t, dest1, dest2))
  }

  /** The plan `run` dispatches to for the selected mode. */
  function PlanFor(mode: SwapMode, p1: Path, p2: Path, id: string): Result<Plan, SwapError> {
    match mode
    case LocationSwap => LocationPlan(p1, p2, id)
    case NameSwap => NamePlan(p1, p2, id)
  }

  /**
   * What the three-move sequence relies on about a plan's shape: the pivot
   * is a sibling of the first operand, every destination is a child of one
   * operand's parent directory, and the two destinations differ.
   */
  predicate Shaped(p1: Path, p2: Path, plan: Plan) {
    && |p1| > 0 && |p2| > 0
    && |plan.temp| > 0 && ParentDir(plan.temp) == ParentDir(p1)
    && |plan.dest1| > 0 && (ParentDir(plan.dest1) == ParentDir(p1) || ParentDir(plan.dest1) == ParentDir(p2))
    && |plan.dest2| > 0 && (ParentDir(plan.dest2) == ParentDir(p1) || ParentDir(plan.dest2) == ParentDir(p2))
    && plan.dest1 != plan.dest2
  }

  /** Both modes produce well-shaped plans for two distinct paths. */
  lemma PlanShaped(mode: SwapMode, p1: Path, p2: Path, id: string)
    requires p1 != p2
    requires PlanFor(mode, p1, p2, id).Ok?
    ensures Shaped(p1, p2, PlanFor(mode, p1, p2, id).value)
  {
    SplitJoin(p1);
    SplitJoin(p2);
  }

  /**
   * Swapping back: planning a swap of the two destinations, in the same
   * mode, leads each entry back to its original path.
   */
  lemma PlanRoundTrip(mode: SwapMode, p1: Path, p2: Path, id: string, id': string)
    requires PlanFor(mode, p1, p2, id).Ok?
    ensures var plan := PlanFor(mode, p1, p2, id).value;
      && PlanFor(mode, plan.dest1, plan.dest2, id').Ok?
      && PlanFor(mode, plan.dest1, plan.dest2, id').value.dest1 == p1
      && PlanFor(mode, plan.dest1, plan.dest2, id').value.dest2 == p2
  {
    SplitJoin(p1);
    SplitJoin(p2);
  }
}
