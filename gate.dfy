/**
 * The safety gate at the start of `run`: both user paths are canonicalised
 * (the first before the second), identical paths are refused, and so is a
 * pair where one is a directory containing the other.
 */
module Gate {
  import opened Wrappers
  import opened Paths
  import opened Errors
  import opened FsModel

  /**
   * `fs::canonicalize`, for the path as the user typed it: either the
   * absolute, symlink-free path it names or the I/O error kind raised.
   */
  type Resolver = Path -> Result<Path, IoErrorKind>

  /** The error closure of `run`: a missing path is reported as such, anything else as I/O. */
  function MapCanonicalizeError(e: IoErrorKind, user: Path): (r: SwapError)
    ensures r.PathNotFound? <==> e == NotFound
    ensures r.Io? <==> e != NotFound
    ensures r.Io? ==> r.kind == e
    ensures (r.PathNotFound? || r.Io?) && r.path == user
  {
    if e == NotFound then PathNotFound(user) else Io(e, user)
  }

  /** One `fs::canonicalize(..).map_err(..)?` step. */
  function Canonicalize(resolve: Resolver, user: Path): (r: Result<Path, SwapError>)
    ensures r.Ok? <==> resolve(user).Ok?
    ensures r.Ok? ==> r.value == resolve(user).value
    ensures r.Err? ==> r.error == MapCanonicalizeError(resolve(user).error, user)
  {
    match resolve(user)
    case Ok(p) => Ok(p)
    case Err(e) => Err(MapCanonicalizeError(e, user))
  }

  /** The subdirectory check, in both directions. */
  predicate Nested(m: Tree, p1: Path, p2: Path) {
    (IsDir(m, p1) && StartsWith(p2, p1)) || (IsDir(m, p2) && StartsWith(p1, p2))
  }

  /**
   * Validation of `run`, up to dispatch: the canonical pair, or the first
   * error in the order the source checks.
   */
  function Validate(m: Tree, user1: Path, user2: Path, resolve: Resolver): (r: Result<(Path, Path), SwapError>)
    ensures resolve(user1).Err? ==> r == Err(MapCanonicalizeError(resolve(user1).error, user1))
    ensures resolve(user1).Ok? && resolve(user2).Err? ==> r == Err(MapCanonicalizeError(resolve(user2).error, user2))
    ensures resolve(user1).Ok? && resolve(user2).Ok? ==>
      var p1, p2 := resolve(user1).value, resolve(user2).value;
      && (r == Err(SamePath) <==> p1 == p2)
      && (r == Err(SwapIntoSubdirectory) <==> p1 != p2 && Nested(m, p1, p2))
      && (r.Ok? <==> p1 != p2 && !Nested(m, p1, p2))
      && (r.Ok? ==> r.value == (p1, p2))
  {
    match Canonicalize(resolve, user1)
    case Err(e) => Err(e)
    case Ok(p1) =>
      match Canonicalize(resolve, user2)
      case Err(e) => Err(e)
      case Ok(p2) =>
        if p1 == p2 then Err(SamePath)
        else if IsDir(m, p1) && StartsWith(p2, p1) then Err(SwapIntoSubdirectory)
        else if IsDir(m, p2) && StartsWith(p1, p2) then Err(SwapIntoSubdirectory)
        else Ok((p1, p2))
  }

  /**
   * A pair that passed validation, on a tree both paths exist in, is two
   * disjoint non-root paths: neither the root nor a directory and one of its
   * descendants gets through, so the later `MissingParent` errors cannot occur.
   */
  lemma ValidatedSafe(m: Tree, user1: Path, user2: Path, resolve: Resolver)
    requires WellFormed(m)
    requires Validate(m, user1, user2, resolve).Ok?
    requires Validate(m, user1, user2, resolve).value.0 in m && Validate(m, user1, user2, resolve).value.1 in m
    ensures var (p1, p2) := Validate(m, user1, user2, resolve).value;
      p1 != [] && p2 != [] && Disjoint(p1, p2)
  {
    var (p1, p2) := Validate(m, user1, user2, resolve).value;
    assert StartsWith(p1, []) && StartsWith(p2, []);
    AncestorsAreDirectories(m, p1);
    AncestorsAreDirectories(m, p2);
  }

  /** When the first path cannot be resolved, the second is never looked at. */
  lemma Path2NotExamined(m: Tree, user1: Path, user2: Path, user2': Path, resolve: Resolver, resolve': Resolver)
    requires resolve(user1).Err? && resolve'(user1) == resolve(user1)
    ensures Validate(m, user1, user2, resolve) == Validate(m, user1, user2', resolve')
  {
  }
}
