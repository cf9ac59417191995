/** The steps of `Runs` are what the services do: each service method, run on the store, takes
    one, or for an item of SubmitDir two, with the exclusions spelled out. */
module Operations {
  import opened Types
  import opened Forest
  import opened Refs
  import opened Stores
  import opened Tree
  import opened Content
  import opened TrashTables
  import opened RecycleBins
  import opened Moves
  import opened Deletion
  import opened Ingest
  import opened CopyTables
  import opened Copies
  import opened DirTrees
  import opened Layouts
  import opened Submissions
  import opened Chunks
  import opened Uploads
  import opened Finishing = Finalize
  import opened Runs

  ghost function WorldOf(store: Store, now: Time): World
    reads store
  {
    World(store.files, store.blobs, store.disk, store.nextId, now)
  }

  /** Trash, also when it stops half way. */
  method Trash(bin: RecycleBin, id: Id, ns: string, at: Time, ghost now: Time, ghost hash: Bytes -> Sha)
    returns (err: Option<Error>, ghost op: Op)
    requires Sound(bin.store.files, bin.store.nextId) && NotLater(bin.store.files, at) && now <= at
    modifies bin.store`files, bin.store`steps
    ensures Does(old(WorldOf(bin.store, now)), op, WorldOf(bin.store, at), hash)
  {
    ghost var done;
    err, done := bin.Trash(id, ns, at);
    op := TrashRows(done, at);
  }

  /** Restore, also when it stops half way, of an item whose parent is missing or active. */
  method Restore(bin: RecycleBin, id: Id, ns: string, ghost now: Time, ghost hash: Bytes -> Sha)
    returns (err: Option<Error>, ghost op: Op)
    requires Sound(bin.store.files, bin.store.nextId) && ParentOk(bin.store.files, id)
    modifies bin.store`files, bin.store`steps
    ensures Does(old(WorldOf(bin.store, now)), op, WorldOf(bin.store, now), hash)
  {
    ghost var m, done := bin.store.files, {};
    err, done := bin.RestoreFromTrash(id, ns);
    RestoredStep(m, id, done);
    op := if done == {} then Idle else RestoreRows(id, done);
  }

  /** The rows a restore took are none, or hold its item. */
  lemma RestoredStep(m: Files, id: Id, done: set<Id>)
    requires Acyclic(m) && done <= m.Keys && UpClosed(m, id, done)
    ensures if done == {} then Unmarked(m, done) == m else id in done
  {
    if done == {} {
      assert Unmarked(m, {}) == m;
    } else {
      var x :| x in done;
      ChainInside(m, id, done, x);
    }
  }

  method MoveFile(mover: Mover, id: Id, target: Option<Id>, ns: string, ghost now: Time, ghost hash: Bytes -> Sha)
    returns (err: Option<Error>, ghost op: Op)
    requires Sound(mover.store.files, mover.store.nextId)
    modifies mover.store`files, mover.store`steps
    ensures Does(old(WorldOf(mover.store, now)), op, WorldOf(mover.store, now), hash)
    ensures op == if err.Some? then Idle else MoveRow(id, target)
  {
    err := mover.MoveFile(id, target, ns);
    op := if err.Some? then Idle else MoveRow(id, target);
  }

  method Rename(mover: Mover, id: Id, name: string, path: string, ns: string, ghost now: Time, ghost hash: Bytes -> Sha)
    returns (err: Option<Error>, ghost op: Op)
    requires Sound(mover.store.files, mover.store.nextId)
    modifies mover.store`files, mover.store`steps
    ensures Does(old(WorldOf(mover.store, now)), op, WorldOf(mover.store, now), hash)
    ensures op == if err.Some? then Idle else RenameRow(id, name, path)
  {
    err := mover.Rename(id, name, path, ns);
    op := if err.Some? then Idle else RenameRow(id, name, path);
  }

  /** A purge: the rows go, or, of an item whose parent is missing or active, they stay restored,
      unless a count was lowered and could not be read back or the rollback failed as well. */
  method Purge(bin: RecycleBin, id: Id, ns: string, ghost now: Time, ghost hash: Bytes -> Sha)
    returns (err: Option<Error>, ghost committed: bool, ghost mid: nat, ghost op: Op)
    requires bin.deleter.store == bin.store
    requires Sound(bin.store.files, bin.store.nextId) && Covered(bin.store.files, bin.store.blobs)
    modifies bin.store`files, bin.store`blobs, bin.store`disk, bin.store`steps
    ensures err.None? ==> committed
    ensures committed ==> op == RemoveRows(Subtree(Trashed(old(bin.store.files), ns), id))
    ensures committed
            || (ParentOk(old(bin.store.files), id) && bin.store.Quiet(mid, bin.store.steps) && !RefUnread(err)) ==>
              Does(old(WorldOf(bin.store, now)), op, WorldOf(bin.store, now), hash)
  {
    ghost var m, done, queue := bin.store.files, {}, [];
    err, done, committed, mid, queue := bin.PurgeFromTrash(id, ns);
    if !committed { RestoredStep(m, id, done); }
    op := if committed then RemoveRows(Subtree(Trashed(m, ns), id))
          else if done == {} then Idle else RestoreRows(id, done);
  }

  /** A count was lowered although the caller saw an error. */
  predicate RefUnread(err: Option<Error>) { err.Some? && err.value.RefCountUnread? }

  /** Deleting one file without undo: its row goes, with its count or without, or nothing does. */
  method DeleteFileNow(deleter: Deleter, row: Row, ghost now: Time, ghost hash: Bytes -> Sha)
    returns (err: Option<Error>, ghost op: Op)
    requires row.id in deleter.store.files && deleter.store.files[row.id] == row.file
    requires Covered(deleter.store.files, deleter.store.blobs)
    modifies deleter.store`files, deleter.store`blobs, deleter.store`disk, deleter.store`steps
    ensures Does(old(WorldOf(deleter.store, now)), op, WorldOf(deleter.store, now), hash)
    ensures op.DropRow? ==> err.Some?
  {
    ghost var i, faults := deleter.store.steps, deleter.store.faults;
    err := deleter.DeleteFileNow(row);
    op := if i in faults then Idle
          else if row.file.sha.Some? && i + 1 in faults then DropRow(row.id) else RemoveRows({row.id});
  }

  /** An instant upload of content that is there, or nowhere. */
  method CheckExists(uploader: Uploader, s: Sha, ns: string, name: string, ghost now: Time)
    returns (err: Option<Error>, row: Option<Row>, ghost op: Op)
    requires IdsBelow(uploader.store.files, uploader.store.nextId)
    requires Covered(uploader.store.files, uploader.store.blobs)
    requires !Lost(uploader.store.blobs, uploader.store.disk, uploader.hash, s)
    modifies uploader.store`files, uploader.store`blobs
    modifies uploader.store`reservations, uploader.store`nextId, uploader.store`steps
    ensures Does(old(WorldOf(uploader.store, now)), op, WorldOf(uploader.store, now), uploader.hash)
    ensures (row.Some? <==> op.LinkRow?) && (row.None? <==> op.Idle? || op.LeakRef?)
    ensures op.LeakRef? ==> !uploader.store.Quiet(old(uploader.store.steps), uploader.store.steps)
  {
    ghost var mid, blobs := 0, uploader.store.blobs;
    err, row, mid := uploader.CheckExists(s, ns, name);
    op := if row.Some? then LinkRow(row.value.file) else if uploader.store.blobs == blobs then Idle else LeakRef(s);
  }

  /** A commit of content that is new or there: one step whether it succeeds or fails. */
  method Commit(uploader: Uploader, session: Id, ns: string, fileName: string, declared: Sha, path: Path, data: Bytes,
                ghost now: Time)
    returns (err: Option<Error>, row: Option<Row>, ghost op: Op)
    requires IdsBelow(uploader.store.files, uploader.store.nextId)
    requires FreshPath(WorldOf(uploader.store, now), path)
    requires !Lost(uploader.store.blobs, uploader.store.disk, uploader.hash, uploader.hash(data))
    modifies uploader.store`files, uploader.store`blobs, uploader.store`disk
    modifies uploader.store`reservations, uploader.store`nextId, uploader.store`steps
    ensures Does(old(WorldOf(uploader.store, now)), op, WorldOf(uploader.store, now), uploader.hash)
    ensures op.FailCommit? <==> err.Some?
    ensures uploader.store.Quiet(old(uploader.store.steps), uploader.store.steps) ==> Exact(op)
  {
    ghost var before, mid := uploader.store.steps, 0;
    err, row, mid := uploader.CommitStream(session, ns, fileName, declared, path, data);
    if err.None? {
      op := Op.Commit(row.value.file, path, data, uploader.store.Quiet(before, uploader.store.steps));
    } else {
      op := FailCommit(path, data, uploader.store.QuietBut(before, mid, uploader.store.steps));
    }
  }

  /** Finalizing a session: nothing, or an identifier may be issued and then the content is
      committed or fails to be, unless that content is known and its bytes are gone. */
  method Finalize(finalizer: Finalizer, ghost now: Time)
    returns (err: Option<Error>, row: Option<Row>, ghost data: Bytes, ghost mid: World, ghost ops: seq<Op>)
    requires finalizer.keys.session.Some? ==>
               && finalizer.keys.session.value.length <= MAX_INT64
               && finalizer.keys.session.value.chunkSize <= MAX_INT64
               && PathsFree(finalizer.uploader.store.disk, finalizer.uploader.store.blobs,
                            finalizer.keys.session.value.ns, finalizer.uploader.show(finalizer.keys.session.value.id))
    requires IdsBelow(finalizer.uploader.store.files, finalizer.uploader.store.nextId)
    modifies finalizer.keys`session, finalizer.keys`chunks, finalizer.keys`offset, finalizer.keys`parts
    modifies finalizer.keys`steps, finalizer.uploader.store`files, finalizer.uploader.store`blobs
    modifies finalizer.uploader.store`disk, finalizer.uploader.store`reservations
    modifies finalizer.uploader.store`nextId, finalizer.uploader.store`steps
    ensures var w := old(WorldOf(finalizer.uploader.store, now));
            var h := finalizer.uploader.hash(data);
            !Lost(w.blobs, w.disk, finalizer.uploader.hash, h) ==>
              IsRun([w, mid, WorldOf(finalizer.uploader.store, now)], ops, finalizer.uploader.hash)
    ensures |ops| == 2 && ops[0].Idle? && (ops[1].Commit? <==> err.None?) && (row.Some? <==> err.None?)
    ensures err.None? ==> ops[1].data == data && ops[1].f == row.value.file
    ensures finalizer.Quiet(old(finalizer.uploader.store.steps)) ==> Clean(ops)
  {
    ghost var store, s, a := finalizer.uploader.store, finalizer.keys.session, finalizer.Now();
    ghost var step0, path, last, claimed := store.steps, "", 0, false;
    err, row, data, path, last, claimed := finalizer.Finalize();
    if claimed {
      mid, ops := CommitSteps(finalizer, s.value, a, finalizer.Now(), row, data, path, finalizer.Quiet(step0),
                              finalizer.QuietBut(step0, last), now);
    } else {
      mid, ops := WorldOf(store, now), [Idle, Idle];
    }
  }

  lemma CommitSteps(finalizer: Finalizer, s: UploadSession, a: Shot, b: Shot, row: Option<Row>, data: Bytes, path: Path,
                    quiet: bool, clean: bool, now: Time)
    returns (mid: World, ops: seq<Op>)
    requires finalizer.CommitEnds(s, a, b, row, data, path, quiet, clean) && (quiet ==> clean)
    ensures var w := World(a.t.files, a.t.blobs, a.disk, a.next, now);
            var w' := World(b.t.files, b.t.blobs, b.disk, b.next, now);
            var hash := finalizer.uploader.hash;
            !Lost(a.t.blobs, a.disk, hash, hash(data)) ==> IsRun([w, mid, w'], ops, hash)
    ensures |ops| == 2 && ops[0].Idle? && (ops[1].Commit? <==> row.Some?)
    ensures row.Some? ==> ops[1].data == data && ops[1].f == row.value.file
    ensures quiet ==> Clean(ops)
  {
    var w, w' := World(a.t.files, a.t.blobs, a.disk, a.next, now), World(b.t.files, b.t.blobs, b.disk, b.next, now);
    var hash := finalizer.uploader.hash;
    mid := w.(next := if row.Some? then row.value.id else a.next);
    var op := if row.Some? then Op.Commit(row.value.file, path, data, quiet) else FailCommit(path, data, clean);
    ops := [Idle, op];
    assert Does(w, Idle, mid, hash);
    if !Lost(a.t.blobs, a.disk, hash, hash(data)) { assert Does(mid, op, w', hash); }
  }

  /** One row of a copy whose content is there, unless it was inserted and not counted. */
  method CopyRecord(copier: Copier, row: File, parent: Option<Id>, ns: string, ghost now: Time,
                    ghost hash: Bytes -> Sha)
    returns (n: Option<Id>, ghost lost: multiset<Sha>, ghost op: Op)
    requires Sound(copier.store.files, copier.store.nextId) && Known(copier.store.files, copier.store.blobs)
    requires row.sha.Some? ==>
              row.sha.value in copier.store.blobs && !Lost(copier.store.blobs, copier.store.disk, hash, row.sha.value)
    requires parent.Some? ==>
              parent.value in Live(copier.store.files) && copier.store.files[parent.value].isDir
              && copier.store.files[parent.value].ns == ns
    modifies copier.store`files, copier.store`blobs, copier.store`nextId, copier.store`steps
    ensures lost == multiset{} ==> Does(old(WorldOf(copier.store, now)), op, WorldOf(copier.store, now), hash)
    ensures copier.store.Quiet(old(copier.store.steps), copier.store.steps) ==> n.Some? && lost == multiset{}
  {
    var copy := CopyOf(row, parent, ns);
    ghost var f0, b0 := copier.store.files, copier.store.blobs;
    n, lost := copier.CopyRecord(row, parent, ns);
    op := if n.None? then Idle else if copy.sha.Some? then LinkRow(copy) else AddRow(copy);
    if n.Some? && lost == multiset{} { CountsTell(f0, b0, n.value, copy, copier.store.blobs); }
  }

  /** A row inserted at equal surplus has raised its own hash's count, and no other. */
  lemma CountsTell(f: Files, b: Blobs, x: Id, row: File, b': Blobs)
    requires x !in f && SlackLess(f, b, f[x := row], b', multiset{}) && (row.sha.Some? ==> row.sha.value in b)
    ensures b' == if row.sha.Some? then Incr(b, row.sha.value) else b
  {
    forall s | s in b
      ensures b'[s].refs == b[s].refs + if row.sha == Some(s) then 1 else 0
    {
      CountInsert(f, x, row, s);
    }
  }

  /** A directory of SubmitDir, at the top or in a directory of its namespace. */
  method MakeDir(submitter: Submitter, row: File, ghost now: Time, ghost hash: Bytes -> Sha)
    returns (err: Option<Error>, id: Id, ghost op: Op)
    requires IdsBelow(submitter.store.files, submitter.store.nextId)
    requires Insertable(WorldOf(submitter.store, now), row) && row.isDir
    modifies submitter.store`files, submitter.store`nextId, submitter.store`steps
    ensures Does(old(WorldOf(submitter.store, now)), op, WorldOf(submitter.store, now), hash)
    ensures op == if err.None? then AddRow(row) else Idle
  {
    err, id := submitter.MakeDir(row);
    op := if err.None? then AddRow(row) else Idle;
  }

  /** An item of SubmitDir is filed, then its content moved: two steps, either of them idle if
      it failed, unless the move was not recorded (`stale`). */
  method PlaceItem(submitter: Submitter, e: Item, dirs: Dirs, ns: string, name: string, ghost now: Time,
                   ghost hash: Bytes -> Sha)
    returns (ghost stale: bool, ghost mid: World, ghost ops: seq<Op>)
    requires "" in dirs && Fileable(submitter.store.files, e.id, FolderOf(dirs, e.path))
    requires Covered(submitter.store.files, submitter.store.blobs)
    requires Unshared(submitter.store.files, submitter.store.blobs, e.id,
                      ReadablePath(ns, name, e.path, submitter.safe))
    modifies submitter.store`files, submitter.store`blobs, submitter.store`disk, submitter.store`steps
    ensures !stale ==> IsRun([old(WorldOf(submitter.store, now)), mid, WorldOf(submitter.store, now)], ops, hash)
    ensures stale ==> Unrecorded(old(submitter.store.blobs), old(submitter.store.disk), submitter.store.blobs,
                                 submitter.store.disk, ReadablePath(ns, name, e.path, submitter.safe))
    ensures submitter.store.Quiet(old(submitter.store.steps), submitter.store.steps) ==> !stale
  {
    ghost var t, disk, next := submitter.store.Now(), submitter.store.disk, submitter.store.nextId;
    ghost var s, p := submitter.PlaceItem(e, dirs, ns, name);
    stale := p.PathStale?;
    mid, ops := PlacedSteps(e.id, FolderOf(dirs, e.path), e.path, ReadablePath(ns, name, e.path, submitter.safe),
                            submitter.store.Quiet(old(submitter.store.steps), submitter.store.steps), s, p, t, disk,
                            submitter.store.Now(), submitter.store.disk, next, now, hash);
  }

  /** Content has been moved to a path no row of the blobs table says. */
  ghost predicate Unrecorded(b: Blobs, d: Disk, b': Blobs, d': Disk, dest: Path) {
    exists s :: s in b && b' == b && b[s].path in d && b[s].path !in d' && dest in d' && d'[dest] == d[b[s].path]
  }

  /** A move of content that some row names to a path of no other content, unless it was not
      recorded. */
  method Relocate(store: Store, s: Sha, dest: Path, ghost now: Time, ghost hash: Bytes -> Sha)
    returns (ghost p: Progress, ghost op: Op)
    requires s in store.blobs ==> store.blobs[s].refs > 0
    requires forall t | t in store.blobs && t != s :: store.blobs[t].path != dest
    modifies store`blobs, store`disk, store`steps
    ensures !p.PathStale? ==> Does(old(WorldOf(store, now)), op, WorldOf(store, now), hash)
    ensures store.Quiet(old(store.steps), store.steps) ==> !p.PathStale?
  {
    ghost var w := WorldOf(store, now);
    p := Layouts.Relocate(store, s, dest);
    op := if p.Untouched? then Idle else Op.Relocate(s, dest, p);
    if !p.Untouched? && !p.PathStale? { MovedStep(w, WorldOf(store, now), s, dest, p, hash); }
  }

  /** An active file, and a directory of its namespace. */
  ghost predicate Fileable(m: Files, x: Id, d: Id) {
    x in Live(m) && !m[x].isDir && d in Live(m) && m[d].isDir && m[d].ns == m[x].ns
  }

  /** No other content lies at the destination of a row's content. */
  ghost predicate Unshared(m: Files, blobs: Blobs, x: Id, dest: Path) {
    forall t | t in blobs && x in m && m[x].sha != Some(t) :: blobs[t].path != dest
  }

  lemma PlacedSteps(x: Id, d: Id, path: string, dest: Path, quiet: bool, s: Option<Sha>, p: Progress, t: Tables,
                    disk: Disk, t': Tables, disk': Disk, next: Id, now: Time, hash: Bytes -> Sha)
    returns (mid: World, ops: seq<Op>)
    requires ItemPlaced(x, d, path, dest, quiet, s, p, t, disk, t', disk')
    requires Fileable(t.files, x, d) && Covered(t.files, t.blobs) && Unshared(t.files, t.blobs, x, dest)
    ensures !p.PathStale? ==>
              IsRun([World(t.files, t.blobs, disk, next, now), mid, World(t'.files, t'.blobs, disk', next, now)], ops,
                    hash)
  {
    mid := World(t'.files, t.blobs, disk, next, now);
    var w0, w1 := World(t.files, t.blobs, disk, next, now), World(t'.files, t'.blobs, disk', next, now);
    var op0 := if t'.files == t.files then Idle else FileRow(x, d, path);
    var op1 := if p.Untouched? then Idle else Op.Relocate(s.value, dest, p);
    ops := [op0, op1];
    assert Does(w0, op0, mid, hash);
    if !p.Untouched? && !p.PathStale? {
      NamedIsCounted(t.files, t.blobs, x);
      MovedStep(mid, w1, s.value, dest, p, hash);
    }
  }

  lemma MovedStep(w: World, w': World, s: Sha, dest: Path, p: Progress, hash: Bytes -> Sha)
    requires s in w.blobs && w.blobs[s].refs > 0 && w.blobs[s].path != dest && !p.PathStale?
    requires forall t | t in w.blobs && t != s :: w.blobs[t].path != dest
    requires w' == World(w.files, BlobsAfter(w.blobs, s, dest, p), DiskAfter(w.blobs, w.disk, s, dest, p), w.next,
                         w.now)
    ensures Does(w, Op.Relocate(s, dest, p), w', hash)
  {
  }

  lemma NamedIsCounted(m: Files, blobs: Blobs, x: Id)
    requires Covered(m, blobs) && x in m && m[x].sha.Some?
    ensures m[x].sha.value in blobs && blobs[m[x].sha.value].refs > 0
  {
    assert x in Namers(m, m[x].sha.value);
  }
}
