# swap — a verified model of the two-path swap

`swap` is a command-line tool that exchanges two files or directories on one
filesystem, using three plain renames and a temporary pivot name. This project
models the core of `src/main.rs` in Dafny and proves what those renames do.

The model follows the program's structure:

- `Paths` (paths.dfy): paths as sequences of name components, as
  `std::path::Path` compares and joins them (`parent`, `file_name`, `join`,
  `starts_with`). The root is the empty sequence.
- `Errors` (errors.dfy): the `SwapError` enum and the I/O error kinds it wraps.
- `FsModel` (filesystem.dfy): the filesystem as a map from absolute paths to
  entries, closed under parents. `MoveTree` is what a successful `fs::rename`
  does to the map: the whole subtree under the source moves. `RenameError`
  lists the failures `rename` detects on its own; every other failure comes
  from the operating system.
- `Planning` (planning.dfy): `generate_temporary_path` and the destinations
  `swap_locations` and `swap_names` compute before moving anything.
- `Moves` (moves.dfy): the tree after each of the three moves, and where every
  entry ends up.
- `Gate` (gate.dfy): canonicalisation and the checks at the start of `run`.
- `Engine` (engine.dfy): the class `FileSystem`, whose `entries` field the
  methods `Rename`, `SafeRename`, `SwapLocations`, `SwapNames` and `Run`
  change in place, with early returns on the first failure as in the source.
- `Modes` (modes.dfy): where each mode puts the two entries, and the four ways
  the move sequence can end.

These have to be supplied from outside: `fs::canonicalize` is a `Resolver`
function parameter; the operating system's verdict on a rename is a
`RenameOracle` parameter; and the UUID is an `id: string` parameter. Error
names follow the code (`SamePath`, `SwapIntoSubdirectory`); some descriptions
of the tool call these `IdenticalPaths` and `NestedSwap`.

## Model

| member | source | states |
|---|---|---|
| Gate.MapCanonicalizeError | src/main.rs:114-120 | a `NotFound` canonicalisation error becomes `PathNotFound`, every other kind becomes `Io` with that kind; both carry the path as the user typed it |
| Gate.Canonicalize | src/main.rs:124-127 | resolution succeeds exactly when `canonicalize` does; a failure is reported through the error closure against the user's path |
| Gate.Validate | src/main.rs:110-140 | a failure on the first path is reported whatever the second is; then the second path's failure; then `SamePath` exactly when the canonical paths are equal; then `SwapIntoSubdirectory` exactly when one is a directory containing the other, in either order; otherwise the canonical pair |
| Gate.ValidatedSafe | src/main.rs:129-140 | a pair that passes validation on a well-formed tree is two disjoint paths, neither of them the root, so no `MissingParent` error can follow |
| Gate.Path2NotExamined | src/main.rs:124-127 | when the first path fails to resolve, the outcome does not depend on the second path or on how it resolves |
| Planning.GenerateTemporaryPath | src/main.rs:214-222 | `MissingParent` exactly for the root; otherwise a path in the same directory named `<name>.swap.<id>`, which differs from the original and neither contains it nor lies inside it |
| Planning.LocationPlan | src/main.rs:156-166 | `MissingParent` for the first path checked before the second; the pivot is the temporary path of the first; the first entry goes to `parent2/name1` and the second to `parent1/name2` |
| Planning.NamePlan | src/main.rs:181-191 | the same error order and pivot; the first entry goes to `parent1/name2` and the second to `parent2/name1` |
| Planning.PlanShaped | src/main.rs:163-166 | for distinct paths, in both modes: the pivot is a sibling of the first path, each destination is in one of the two parent directories, and the destinations differ |
| Planning.PlanRoundTrip | src/main.rs:163-164 | planning the same mode again on the two destinations sends each entry back to its original path |
| FsModel.RenameError | src/main.rs:210 | a missing source gives `NotFound`; a root operand, a missing or non-directory destination parent, or a destination inside the source each give their own error; otherwise the operating system's verdict |
| FsModel.MoveTreeWellFormed | src/main.rs:210 | a permitted rename to a vacant place keeps the tree closed under parents |
| FsModel.MoveTreeRelocates | src/main.rs:210 | such a rename puts the source entry at the destination, frees the source, and leaves every entry outside the source's subtree in place |
| Engine.FileSystem.Rename | src/main.rs:210 | result is `RenameError`; on failure nothing changes; on success the subtree is moved and the tree stays well formed |
| Engine.FileSystem.SafeRename | src/main.rs:209-211 | fails exactly when the rename does, as `Io(kind, from)`, with the tree unchanged; on success the subtree is moved |
| Engine.FileSystem.MoveThrough | src/main.rs:168-177 | the three renames in order, each returning early on failure with no rollback; the result and final tree are those of `SequenceOutcome` |
| Engine.FileSystem.SwapLocations | src/main.rs:156-178 | a `MissingParent` error leaves the tree untouched; otherwise the outcome of the location plan's three moves |
| Engine.FileSystem.SwapNames | src/main.rs:181-203 | a `MissingParent` error leaves the tree untouched; otherwise the outcome of the name plan's three moves |
| Engine.FileSystem.Run | src/main.rs:110-153 | a refused pair leaves the filesystem untouched and returns the validation error; an accepted pair always has a plan in the selected mode, and the result is that plan's move sequence |
| Moves.Parked | src/main.rs:169 | after move 1 the first entry is at the pivot, its old path is free, nothing outside its subtree moved, and nothing new appeared outside the pivot |
| Moves.HalfSwapped | src/main.rs:169-172 | after move 2 the pivot still holds the first entry, the second is at its destination, each old path is occupied only if it is that destination, and every other entry is untouched |
| Moves.SwapCompleted | src/main.rs:168-177 | after move 3 every original entry is at its `SwapDest` image and every final entry came from its `SwapSource` preimage (a bijection); the tree is well formed and nothing is left at or under the pivot |
| Moves.SwapResult | src/main.rs:168-177 | after a full swap each destination holds its operand's entry, every other entry is untouched, the pivot is gone, and the number of entries is the same |
| Moves.SwapTwiceRestores | src/main.rs:156-203 | swapping the two results again in the same mode, with a pivot that was vacant in the original tree and is not the second destination, is admissible and restores the original tree exactly |
| Modes.LocationSwapExchangesDirectories | src/main.rs:163-164 | after a location swap the first entry is at `parent2/name1` and the second at `parent1/name2` |
| Modes.NameSwapExchangesNames | src/main.rs:188-189 | after a name swap the first entry is at `parent1/name2` and the second at `parent2/name1` |
| Modes.SiblingLocationSwapChangesNothing | src/main.rs:163-175 | a location swap of two entries of one directory leaves the tree unchanged |
| Modes.StoppedAtFirstMove | src/main.rs:169 | when the operating system refuses the first rename, the sequence ends exactly in a failure against the first path with that kind and an unchanged tree |
| Modes.StoppedAtSecondMove | src/main.rs:172 | when the OS refuses the second rename, the failure names the second path; the first entry is stranded at the pivot, its old path is free, and the second entry is still in place |
| Modes.StoppedAtThirdMove | src/main.rs:175 | when the OS refuses the third rename, the failure names the pivot; the pivot still holds the first entry while the second is already at its destination |
| Modes.CompletedSwap | src/main.rs:168-177 | when the OS refuses no rename the result is success; both entries are at their destinations, the pivot is gone, no entry was created or lost, and every other entry is untouched |

## Left out

- The command line (`clap` parsing, `main`, the exit code), the `log!` output and the `Display` texts of the errors: they are presentation, not behaviour.
- `Error::source` on `SwapError`: it only exposes the wrapped I/O error.
- UUID randomness: the id is a parameter. That the pivot collides with nothing (vacant, and distinct from both destinations) is a precondition.
- The `"temp"` fallback for non-UTF-8 file names: names here are strings, so `to_str` always succeeds.
- Engine.FileSystem.Rename: overwriting an existing destination is not modelled. A rename whose destination is occupied by a different entry is excluded by precondition. So a swap whose destination already holds a third entry is outside the model (`TargetsFree`). In the source, such a swap would replace a file or fail on a non-empty directory.
- Engine.FileSystem.Run: requires that every path `canonicalize` returns exists in the tree, and that the pivot and destinations are free. The real call reads the live filesystem; the model takes it as the `Resolver` parameter.
- The operating system's own rename failures (permissions, busy files, crossing devices) are the `RenameOracle` parameter; the model does not say when they happen.
- Symbolic links: canonical paths contain none, and the tree has no link entries.
- Concurrency: another process changing the filesystem between the checks and the renames is not modelled.
