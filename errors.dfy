/** The error taxonomy of the swap tool (`SwapError`, src/main.rs:13-26). */
module Errors {
  import opened Paths

  /** The `std::io::ErrorKind` values the model distinguishes. */
  datatype IoErrorKind =
    | NotFound
    | PermissionDenied
    | NotADirectory
    | InvalidInput
    | ResourceBusy
    | CrossesDevices
    | Other

  datatype SwapError =
    | Io(kind: IoErrorKind, path: Path)
    | PathNotFound(path: Path)
    | SamePath
    | SwapIntoSubdirectory
    | MissingParent(path: Path)
}
