/** The records of the file store (internal/domain/model.go) and the errors its
    operations return. A Go `nil` error is `None`. */
module Types {
  datatype Option<+T> = None | Some(value: T)

  /** File identifiers. NewID never repeats one, so they are drawn from a counter. */
  type Id = nat
  type Sha = string
  type Path = string
  type Bytes = seq<bv8>

  /** Nanoseconds; `deleted_at` columns hold whole seconds. */
  type Time = int
  const SECOND: Time := 1_000_000_000

  /** A row of `files`. Directories carry no hash; a missing parent is the root listing. */
  datatype File = File(
    sha: Option<Sha>, name: string, path: string, size: nat, ns: string,
    isDir: bool, parent: Option<Id>, deletedAt: Option<Time>)

  /** A file row together with its key, as the list queries return it. */
  datatype Row = Row(id: Id, file: File)

  /** A row of `content_blobs`. */
  datatype Blob = Blob(path: Path, size: nat, refs: nat)

  datatype Error =
    | NotFound
    | Forbidden
    | InvalidArgument
    | QuotaExceeded
    | SessionNotFound
    | SessionState
    | OffsetConflict
    | UploadIncomplete
    | SliceChecksum
    | ContentChecksum
    | Corrupted
      // a statement, Redis command or storage call failed and changed nothing
    | StepFailed
      // DecrBlobRef lowered the count but could not read it back
    | RefCountUnread(sha: Sha)
}
