/** Whole runs. Each operation is what the contract of its method says it does to the tables
    and the disk; any sequence of them keeps the tree, the bin, the counts and the content. */
module Runs {
  import opened Types
  import opened Forest
  import opened Refs
  import opened Tree
  import opened Content
  import opened TrashTables
  import opened Moves
  import opened Deletion
  import opened Ingest
  import opened DirTrees
  import opened Layouts

  datatype World = World(files: Files, blobs: Blobs, disk: Disk, next: Id, now: Time)

  datatype Op =
    | TrashRows(ids: set<Id>, at: Time)                     // Trash, or a part of one that failed
    | RestoreRows(top: Id, ids: set<Id>)                    // RestoreFromTrash or a failed purge, or a part
    | MoveRow(x: Id, parent: Option<Id>)                    // MoveFile
    | RenameRow(x: Id, name: string, path: string)          // Rename
    | AddRow(f: File)                                       // a directory of SubmitDir or BatchCopy
    | FileRow(x: Id, d: Id, path: string)                   // SubmitDir
    | LinkRow(f: File)                                      // CheckExists, and BatchCopy of a file
    | LeakRef(s: Sha)                                       // CheckExists that could not take it back
    | Commit(f: File, path: Path, data: Bytes, quiet: bool) // Finalize
    | FailCommit(path: Path, data: Bytes, quiet: bool)
    | RemoveRows(gone: set<Id>)                             // deletion of a file, purge
    | DropRow(x: Id)                                        // a deletion whose count stays
    | Relocate(s: Sha, dest: Path, p: Progress)             // SubmitDir
    | Idle                                                  // refused, or stopped before any change

  /** A row inserted under a directory of its namespace, or at the top. */
  ghost predicate Insertable(w: World, f: File) {
    && Active(f) && (f.isDir ==> f.sha.None?)
    && (f.parent.Some? ==>
          f.parent.value in Live(w.files) && w.files[f.parent.value].isDir && w.files[f.parent.value].ns == f.ns)
  }

  ghost predicate FreshPath(w: World, path: Path) {
    path !in w.disk && forall t | t in w.blobs :: w.blobs[t].path != path
  }

  /** The operations that leave the blobs and the disk alone. */
  ghost predicate OnlyFiles(w: World, w': World) { w'.blobs == w.blobs && w'.disk == w.disk }

  /** One operation. Not among them: taking a reference to content whose bytes are gone,
      restoring under a trashed parent, moving content onto another's path or losing track of
      it, copying a row without counting it, and a deletion that leaves a count too low
      (lowered and not read back, or a rollback that failed as well). */
  ghost predicate Does(w: World, op: Op, w': World, hash: Bytes -> Sha) {
    && w.now <= w'.now
    && match op
       case TrashRows(ids, at) =>
         && OnlyFiles(w, w') && w'.next == w.next && w'.now == at
         && ids <= Live(w.files).Keys && DownClosed(w.files, ids) && w'.files == Marked(w.files, ids, at)
       case RestoreRows(top, ids) =>
         && OnlyFiles(w, w') && w'.next == w.next
         && ids <= w.files.Keys && top in ids && UpClosed(w.files, top, ids) && ParentOk(w.files, top)
         && w'.files == Unmarked(w.files, ids)
       case MoveRow(x, parent) =>
         && OnlyFiles(w, w') && w'.next == w.next
         && x in Live(w.files) && MoveAnswer(w.files, x, parent, w.files[x].ns).None?
         && w'.files == w.files[x := w.files[x].(parent := parent)]
       case RenameRow(x, name, path) =>
         && OnlyFiles(w, w') && w'.next == w.next
         && x in Live(w.files) && w'.files == w.files[x := w.files[x].(name := name, path := path)]
       case AddRow(f) =>
         && OnlyFiles(w, w') && w'.next > w.next
         && Insertable(w, f) && f.sha.None? && w'.files == w.files[w.next := f]
       case FileRow(x, d, path) =>
         && OnlyFiles(w, w') && w'.next == w.next
         && x in Live(w.files) && !w.files[x].isDir
         && d in Live(w.files) && w.files[d].isDir && w.files[d].ns == w.files[x].ns
         && w'.files == w.files[x := Filed(w.files[x], d, path)]
       case LinkRow(f) =>
         && w'.disk == w.disk && w'.next > w.next
         && Insertable(w, f) && f.sha.Some? && f.sha.value in w.blobs && !Lost(w.blobs, w.disk, hash, f.sha.value)
         && w'.files == w.files[w.next := f] && w'.blobs == Incr(w.blobs, f.sha.value)
       case LeakRef(s) =>
         && w'.files == w.files && w'.disk == w.disk && w'.next >= w.next
         && s in w.blobs && !Lost(w.blobs, w.disk, hash, s) && w'.blobs == Incr(w.blobs, s)
       case Commit(f, path, data, quiet) =>
         && w'.next > w.next && FreshPath(w, path)
         && Insertable(w, f) && f.sha == Some(hash(data)) && !Lost(w.blobs, w.disk, hash, hash(data))
         && w'.files == w.files[w.next := f] && w'.blobs == Acquired(w.blobs, hash(data), path, |data|)
         && Committed(w.blobs, w.disk, w'.disk, hash(data), path, data, quiet)
       case FailCommit(path, data, quiet) =>
         && w'.files == w.files && w'.next >= w.next && FreshPath(w, path) && !Lost(w.blobs, w.disk, hash, hash(data))
         && AfterFailure(w.blobs, w.disk, w'.blobs, w'.disk, hash(data), path, data, quiet)
       case RemoveRows(gone) =>
         && w'.next == w.next && w'.files == w.files - gone
         && SameSlack(w.files, w.blobs, w'.files, w'.blobs) && Freed(w.blobs, w.disk, w'.blobs, w'.disk)
       case DropRow(x) =>
         && OnlyFiles(w, w') && w'.next == w.next
         && x in w.files && w.files[x].sha.Some? && w'.files == w.files - {x}
       case Relocate(s, dest, p) =>
         && w'.files == w.files && w'.next == w.next
         && s in w.blobs && w.blobs[s].refs > 0 && w.blobs[s].path != dest && !p.PathStale?
         && (forall t | t in w.blobs && t != s :: w.blobs[t].path != dest)
         && w'.blobs == BlobsAfter(w.blobs, s, dest, p) && w'.disk == DiskAfter(w.blobs, w.disk, s, dest, p)
       case Idle => OnlyFiles(w, w') && w'.files == w.files && w'.next >= w.next
  }

  /** Nothing was left uncompensated: no reference leaked, no count kept for a row that went,
      and each failed commit was cleaned up. */
  predicate Exact(op: Op) {
    !op.LeakRef? && !op.DropRow? && (op.FailCommit? ==> op.quiet)
  }

  /** What holds between operations; `exact` as long as no failure went uncompensated. */
  ghost predicate Good(w: World, exact: bool, hash: Bytes -> Sha) {
    && Sound(w.files, w.next) && NotLater(w.files, w.now)
    && Covered(w.files, w.blobs) && (exact ==> Conserved(w.files, w.blobs))
    && Stored(w.blobs, w.disk, hash) && PathsApart(w.blobs)
  }

  /** Identifiers may be issued and not used. */
  lemma MoreIds(m: Files, next: Id, later: Id)
    requires Sound(m, next) && next <= later
    ensures Sound(m, later)
  {
  }

  /** Rows that keep their hashes keep the counts. */
  lemma SameHashes(m: Files, m': Files, blobs: Blobs)
    requires m'.Keys == m.Keys && forall x | x in m :: m'[x].sha == m[x].sha
    ensures Covered(m, blobs) ==> Covered(m', blobs)
    ensures Conserved(m, blobs) ==> Conserved(m', blobs)
  {
    forall s ensures Count(m', s) == Count(m, s) { CountSame(m, m', s); }
  }

  /** Where a blob lies does not matter to the counts. */
  lemma SamePaths(m: Files, blobs: Blobs, s: Sha, dest: Path, p: Progress)
    ensures Covered(m, blobs) ==> Covered(m, BlobsAfter(blobs, s, dest, p))
    ensures Conserved(m, blobs) ==> Conserved(m, BlobsAfter(blobs, s, dest, p))
  {
  }

  lemma KeepsTree(w: World, op: Op, w': World, hash: Bytes -> Sha)
    requires Does(w, op, w', hash) && Sound(w.files, w.next) && NotLater(w.files, w.now)
    ensures Sound(w'.files, w'.next) && NotLater(w'.files, w'.now)
  {
    KeepsClock(w, op, w', hash);
    if op.AddRow? || op.LinkRow? || op.Commit? {
      AddSound(w.files, w.next, op.f);
      MoreIds(w'.files, w.next + 1, w'.next);
    } else if op.TrashRows? || op.RestoreRows? {
      KeepsBin(w, op, w', hash);
    } else {
      KeepsOldRows(w, op, w', hash);
    }
  }

  lemma KeepsClock(w: World, op: Op, w': World, hash: Bytes -> Sha)
    requires Does(w, op, w', hash) && NotLater(w.files, w.now)
    ensures NotLater(w'.files, w'.now)
  {
    if op.TrashRows? { MarkedLater(w.files, op.ids, w.now, op.at); }
  }

  lemma MarkedLater(m: Files, ids: set<Id>, now: Time, at: Time)
    requires NotLater(m, now) && now <= at
    ensures NotLater(Marked(m, ids, at), at)
  {
  }

  lemma KeepsBin(w: World, op: Op, w': World, hash: Bytes -> Sha)
    requires Does(w, op, w', hash) && Sound(w.files, w.next) && NotLater(w.files, w.now)
    requires op.TrashRows? || op.RestoreRows?
    ensures Sound(w'.files, w'.next)
  {
    match op
    case TrashRows(ids, at) => MarkedSound(w.files, w.next, ids, at);
    case RestoreRows(top, ids) => UnmarkedSound(w.files, w.next, top, ids);
  }

  lemma KeepsOldRows(w: World, op: Op, w': World, hash: Bytes -> Sha)
    requires Does(w, op, w', hash) && Sound(w.files, w.next)
    requires !op.AddRow? && !op.LinkRow? && !op.Commit? && !op.TrashRows? && !op.RestoreRows?
    ensures Sound(w'.files, w'.next)
  {
    match op
    case MoveRow(x, parent) => KeepsMoved(w, x, parent);
    case RenameRow(x, name, path) => RenamedSound(w.files, w.next, x, name, path);
    case FileRow(x, d, path) => FiledSound(w.files, w.next, x, d, path);
    case RemoveRows(gone) => SoundCut(w.files, w'.files, w.next);
    case DropRow(x) => SoundCut(w.files, w'.files, w.next);
    case _ => MoreIds(w.files, w.next, w'.next);
  }

  lemma KeepsMoved(w: World, x: Id, parent: Option<Id>)
    requires Sound(w.files, w.next)
    requires x in Live(w.files) && MoveAnswer(w.files, x, parent, w.files[x].ns).None?
    ensures Sound(w.files[x := w.files[x].(parent := parent)], w.next)
  {
    if parent.Some? { AncestorsLive(w.files, x, parent.value); }
    MovedSound(w.files, w.next, x, parent);
  }

  lemma KeepsCounts(w: World, op: Op, w': World, hash: Bytes -> Sha)
    requires Does(w, op, w', hash) && Covered(w.files, w.blobs) && IdsBelow(w.files, w.next)
    ensures Covered(w'.files, w'.blobs)
    ensures Conserved(w.files, w.blobs) && Exact(op) ==> Conserved(w'.files, w'.blobs)
  {
    match op
    case AddRow(f) =>
      InsertKeepsSlack(w.files, w.blobs, w.next, f);
      SlackKeepsInvariants(w.files, w.blobs, w'.files, w'.blobs);
    case LinkRow(f) => AcquireKeepsCover(w.files, w.blobs, f.sha.value, "", 0, w.next, f);
    case Commit(f, path, data, quiet) => AcquireKeepsCover(w.files, w.blobs, hash(data), path, |data|, w.next, f);
    case _ => KeepsOldCounts(w, op, w', hash);
  }

  lemma KeepsOldCounts(w: World, op: Op, w': World, hash: Bytes -> Sha)
    requires Does(w, op, w', hash) && Covered(w.files, w.blobs) && IdsBelow(w.files, w.next)
    requires !op.AddRow? && !op.LinkRow? && !op.Commit?
    ensures Covered(w'.files, w'.blobs)
    ensures Conserved(w.files, w.blobs) && Exact(op) ==> Conserved(w'.files, w'.blobs)
  {
    match op
    case FailCommit(path, data, quiet) => FailedCounts(w, w', hash(data), path, data, quiet);
    case RemoveRows(gone) =>
      CoveredCut(w.files, w.blobs, w'.files, w'.blobs);
      SlackKeepsInvariants(w.files, w.blobs, w'.files, w'.blobs);
    case DropRow(x) => CountRemoved(w.files, w.blobs, x);
    case LeakRef(s) =>
    case _ => KeepsHashes(w, op, w', hash);
  }

  /** The operations that only move rows about, and moves of content. */
  lemma KeepsHashes(w: World, op: Op, w': World, hash: Bytes -> Sha)
    requires Does(w, op, w', hash) && Covered(w.files, w.blobs)
    requires op.TrashRows? || op.RestoreRows? || op.MoveRow? || op.RenameRow? || op.FileRow? || op.Relocate? || op.Idle?
    ensures Covered(w'.files, w'.blobs)
    ensures Conserved(w.files, w.blobs) ==> Conserved(w'.files, w'.blobs)
  {
    if op.Relocate? {
      SamePaths(w.files, w.blobs, op.s, op.dest, op.p);
    } else {
      SameHashes(w.files, w'.files, w.blobs);
    }
  }

  lemma FailedCounts(w: World, w': World, s: Sha, path: Path, data: Bytes, quiet: bool)
    requires Covered(w.files, w.blobs) && IdsBelow(w.files, w.next) && w'.files == w.files
    requires AfterFailure(w.blobs, w.disk, w'.blobs, w'.disk, s, path, data, quiet)
    ensures Covered(w'.files, w'.blobs)
    ensures quiet && Conserved(w.files, w.blobs) ==> Conserved(w'.files, w'.blobs)
  {
    var f := ContentRow(s, "", "", |data|, "");
    CommitKeepsCounts(w.files, w.blobs, w.disk, w'.blobs, w'.disk, s, path, data, quiet, w.next, f);
  }

  lemma KeepsContent(w: World, op: Op, w': World, hash: Bytes -> Sha)
    requires Does(w, op, w', hash) && Stored(w.blobs, w.disk, hash) && PathsApart(w.blobs)
    ensures Stored(w'.blobs, w'.disk, hash) && PathsApart(w'.blobs)
  {
    match op
    case LinkRow(f) => IncrStored(w.blobs, w.disk, hash, f.sha.value);
    case LeakRef(s) => IncrStored(w.blobs, w.disk, hash, s);
    case Commit(f, path, data, quiet) => CommitStoresContent(w.blobs, w.disk, w'.disk, path, data, quiet, hash);
    case FailCommit(path, data, quiet) => FailedContent(w, w', hash, path, data, quiet);
    case RemoveRows(gone) => FreedKeepsStored(w.blobs, w.disk, w'.blobs, w'.disk, hash);
    case Relocate(s, dest, p) =>
      MoveKeepsContent(w.blobs, w.disk, s, dest, p, hash);
    case _ =>
  }

  lemma FailedContent(w: World, w': World, hash: Bytes -> Sha, path: Path, data: Bytes, quiet: bool)
    requires Stored(w.blobs, w.disk, hash) && PathsApart(w.blobs) && FreshPath(w, path)
    requires !Lost(w.blobs, w.disk, hash, hash(data))
    requires AfterFailure(w.blobs, w.disk, w'.blobs, w'.disk, hash(data), path, data, quiet)
    ensures Stored(w'.blobs, w'.disk, hash) && PathsApart(w'.blobs)
  {
    var s := hash(data);
    if s in w.blobs { IncrStored(w.blobs, w.disk, hash, s); }
    assert w.disk[path := data] - {path} == w.disk - {path};
    SameAtOtherPaths(w.blobs, w.disk, w.disk[path := data], hash, path);
    if s in w.blobs { SameAtOtherPaths(Incr(w.blobs, s), w.disk, w.disk[path := data], hash, path); }
  }

  lemma StepGood(w: World, op: Op, w': World, exact: bool, hash: Bytes -> Sha)
    requires Good(w, exact, hash) && Does(w, op, w', hash)
    ensures Good(w', exact && Exact(op), hash)
  {
    KeepsTree(w, op, w', hash);
    KeepsCounts(w, op, w', hash);
    KeepsContent(w, op, w', hash);
  }

  /** A run: the worlds it passes through. */
  ghost predicate IsRun(ws: seq<World>, ops: seq<Op>, hash: Bytes -> Sha) {
    |ws| == |ops| + 1 && forall i | 0 <= i < |ops| :: Does(ws[i], ops[i], ws[i + 1], hash)
  }

  predicate Clean(ops: seq<Op>) { forall op | op in ops :: Exact(op) }

  lemma {:induction false} RunGood(ws: seq<World>, ops: seq<Op>, exact: bool, hash: Bytes -> Sha)
    requires IsRun(ws, ops, hash) && Good(ws[0], exact, hash)
    ensures Good(ws[|ops|], exact && Clean(ops), hash)
    decreases |ops|
  {
    if ops != [] {
      var n := |ops| - 1;
      RunGood(ws[..n + 1], ops[..n], exact, hash);
      assert Does(ws[n], ops[n], ws[n + 1], hash);
      StepGood(ws[n], ops[n], ws[n + 1], exact && Clean(ops[..n]), hash);
      assert ops == ops[..n] + [ops[n]];
    }
  }

  /** From an empty store, after any run: no row is its own ancestor, no active row is under a
      trashed one, a trashed row is never younger than its trashed parent, and whatever any
      row names, trashed or not, is on disk under that hash. If every failure was
      compensated, the consistency scan finds nothing. */
  lemma EveryRun(ws: seq<World>, ops: seq<Op>, hash: Bytes -> Sha)
    requires IsRun(ws, ops, hash) && ws[0].files == map[] && ws[0].blobs == map[]
    ensures var w := ws[|ops|];
            && Acyclic(w.files) && TrashClosed(w.files) && TrashOrdered(w.files)
            && (forall x | x in w.files && w.files[x].sha.Some? ::
                  w.files[x].sha.value in w.blobs
                  && Holds(w.blobs[w.files[x].sha.value], w.files[x].sha.value, w.disk, hash))
            && (Clean(ops) ==> Drifted(w.files, w.blobs) == {})
  {
    assert Good(ws[0], true, hash);
    RunGood(ws, ops, true, hash);
    var w := ws[|ops|];
    forall x | x in w.files && w.files[x].sha.Some?
      ensures w.files[x].sha.value in w.blobs
      ensures Holds(w.blobs[w.files[x].sha.value], w.files[x].sha.value, w.disk, hash)
    {
      NamedContentIsStored(w.files, w.blobs, w.disk, hash, x);
    }
    if Clean(ops) { NoDriftMeansConserved(w.files, w.blobs); }
  }
}
