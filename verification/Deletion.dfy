/** Permanent deletion of a file or directory tree with an undo log
    (internal/domain/upload.go:1006-1128). Metadata is removed first and every removal is
    logged; physical objects are deleted only after the whole tree is gone. */
module Deletion {
  import opened Types
  import opened Forest
  import opened Refs
  import opened Stores
  import opened Tree
  import opened Content

  datatype UndoOp = UndoDeleteFile(row: Row) | UndoDecrRef(sha: Sha)

  /** What one rollback step does when the store accepts it. */
  function ApplyUndo(op: UndoOp, t: Tables): Tables {
    match op
    case UndoDeleteFile(r) =>
      if r.id in t.files then t else t.(files := t.files[r.id := r.file.(deletedAt := None)])
    case UndoDecrRef(s) => t.(blobs := Incr(t.blobs, s))
  }

  /** The log replayed from its newest entry to its oldest. */
  function Replay(undo: seq<UndoOp>, t: Tables): Tables {
    if undo == [] then t else Replay(undo[..|undo| - 1], ApplyUndo(undo[|undo| - 1], t))
  }

  lemma ReplayLast(undo: seq<UndoOp>, op: UndoOp, t: Tables)
    ensures Replay(undo + [op], t) == Replay(undo, ApplyUndo(op, t))
  {
  }

  /** The same replay under a fault schedule: step `at` of the store is the first entry. */
  function ReplayUnder(undo: seq<UndoOp>, t: Tables, faults: iset<nat>, at: nat): Tables
    decreases |undo|
  {
    if undo == [] then t
    else ReplayUnder(undo[..|undo| - 1],
                     if at in faults then t else ApplyUndo(undo[|undo| - 1], t), faults, at + 1)
  }

  lemma {:induction false} QuietReplay(undo: seq<UndoOp>, t: Tables, faults: iset<nat>, at: nat)
    requires forall i: nat | at <= i < at + |undo| :: i !in faults
    ensures ReplayUnder(undo, t, faults, at) == Replay(undo, t)
    decreases |undo|
  {
    if undo != [] {
      QuietReplay(undo[..|undo| - 1], ApplyUndo(undo[|undo| - 1], t), faults, at + 1);
    }
  }

  /** The rows of one table are rows of another. */
  ghost predicate Cut(m': Files, m: Files) {
    m'.Keys <= m.Keys && forall x | x in m' :: m'[x] == m[x]
  }

  /** Every row outside `gone` is still there. */
  ghost predicate Spared(m: Files, gone: set<Id>, m': Files) {
    forall x | x in m && x !in gone :: x in m' && m'[x] == m[x]
  }

  /** Every logged row was an active row of `m`. */
  ghost predicate LoggedFrom(undo: seq<UndoOp>, m: Files) {
    forall i | 0 <= i < |undo| && undo[i].UndoDeleteFile? ::
      undo[i].row.id in m && m[undo[i].row.id] == undo[i].row.file.(deletedAt := None)
  }

  /** However many rollback steps fail, nothing but rows of the starting table comes back. */
  lemma {:induction false} ReplayStaysWithin(undo: seq<UndoOp>, t: Tables, faults: iset<nat>, at: nat, m: Files)
    requires Cut(t.files, m) && LoggedFrom(undo, m)
    ensures Cut(ReplayUnder(undo, t, faults, at).files, m)
    decreases |undo|
  {
    if undo != [] {
      ReplayStaysWithin(undo[..|undo| - 1], if at in faults then t else ApplyUndo(undo[|undo| - 1], t), faults, at + 1,
                        m);
    }
  }

  /** However many fail, a rollback takes no row away. */
  lemma {:induction false} ReplaySpares(undo: seq<UndoOp>, t: Tables, faults: iset<nat>, at: nat)
    ensures Spared(t.files, {}, ReplayUnder(undo, t, faults, at).files)
    decreases |undo|
  {
    if undo != [] {
      ReplaySpares(undo[..|undo| - 1], if at in faults then t else ApplyUndo(undo[|undo| - 1], t), faults, at + 1);
    }
  }

  /** A rollback only adds rows. */
  lemma {:induction false} ReplayExtends(undo: seq<UndoOp>, t: Tables)
    ensures Cut(t.files, Replay(undo, t).files)
    decreases |undo|
  {
    if undo != [] { ReplayExtends(undo[..|undo| - 1], ApplyUndo(undo[|undo| - 1], t)); }
  }

  lemma UndoneDelete(t: Tables, r: Row)
    requires r.id in t.files && t.files[r.id] == r.file.(deletedAt := None)
    ensures ApplyUndo(UndoDeleteFile(r), t.(files := t.files - {r.id})) == t
  {
  }

  /** Only a count that was above zero is restored: MAX(0, ...) forgets the rest. */
  lemma UndoneDecr(blobs: Blobs, s: Sha)
    requires s in blobs
    ensures Incr(Decr(blobs, s), s) == blobs <==> blobs[s].refs > 0
  {
  }

  /** The count a failed re-read has lowered behind the caller's back, put right. */
  function Compensated(err: Option<Error>, t: Tables): Tables {
    match err
    case Some(RefCountUnread(s)) => t.(blobs := Incr(t.blobs, s))
    case _ => t
  }

  /** Raising a count commutes with the whole rollback. */
  lemma {:induction false} ReplayIncr(undo: seq<UndoOp>, t: Tables, s: Sha)
    ensures Replay(undo, t.(blobs := Incr(t.blobs, s))) ==
            var u := Replay(undo, t); u.(blobs := Incr(u.blobs, s))
    decreases |undo|
  {
    if undo != [] {
      var op := undo[|undo| - 1];
      var t' := t.(blobs := Incr(t.blobs, s));
      assert ApplyUndo(op, t') == var u := ApplyUndo(op, t); u.(blobs := Incr(u.blobs, s)) by {
        if op.UndoDecrRef? && op.sha != s { assert Incr(Incr(t.blobs, s), op.sha) == Incr(Incr(t.blobs, op.sha), s); }
      }
      ReplayIncr(undo[..|undo| - 1], ApplyUndo(op, t), s);
    }
  }

  /** The two slices deleteDirDeferred passes down by pointer. */
  class UndoLog {
    var undo: seq<UndoOp>
    var pending: seq<Path>
    /** The blobs `pending` came from, in the same order. */
    ghost var queued: seq<Sha>

    constructor ()
      ensures undo == [] && pending == [] && queued == []
    {
      undo, pending, queued := [], [], [];
    }
  }

  /** Each pending path belongs to a different blob whose count is zero and which some row
      of the starting table named. */
  ghost predicate Queued(queued: seq<Sha>, pending: seq<Path>, blobs: Blobs, f: Files) {
    && |queued| == |pending|
    && (forall i | 0 <= i < |queued| :: Count(f, queued[i]) > 0)
    && (forall i, j | 0 <= i < j < |queued| :: queued[i] != queued[j])
    && (forall i | 0 <= i < |queued| ::
          queued[i] in blobs && blobs[queued[i]].refs == 0 && blobs[queued[i]].path == pending[i])
  }

  /** Every blob whose count fell to zero has been queued. */
  ghost predicate QueuesAll(b0: Blobs, b1: Blobs, queued: seq<Sha>) {
    forall s | FellToZero(b0, b1, s) :: s in queued
  }

  /** Lowering a positive count keeps the queue, and only a count that reaches zero is
      missing from it. */
  lemma QueuedDecr(queued: seq<Sha>, pending: seq<Path>, blobs: Blobs, f: Files, s: Sha)
    requires s in blobs && blobs[s].refs > 0 && Count(f, s) > 0 && Queued(queued, pending, blobs, f)
    ensures Queued(queued, pending, Decr(blobs, s), f)
    ensures blobs[s].refs == 1 ==> Queued(queued + [s], pending + [blobs[s].path], Decr(blobs, s), f)
    ensures QueuesAll(blobs, Decr(blobs, s), queued + [s])
    ensures blobs[s].refs > 1 || blobs[s].path == "" ==> QueuesAll(blobs, Decr(blobs, s), queued)
  {
  }

  /** The blobs with a path whose count fell to zero between two states. */
  ghost predicate FellToZero(b0: Blobs, b1: Blobs, s: Sha) {
    s in b0 && s in b1 && b0[s].refs > 0 && b1[s].refs == 0 && b1[s].path != ""
  }

  lemma QueuesCompose(f0: Files, b0: Blobs, f1: Files, b1: Blobs, f2: Files, b2: Blobs, q1: seq<Sha>, q2: seq<Sha>)
    requires SameSlack(f0, b0, f1, b1) && SameSlack(f1, b1, f2, b2) && q1 <= q2
    requires QueuesAll(b0, b1, q1) && QueuesAll(b1, b2, q2)
    ensures QueuesAll(b0, b2, q2)
  {
    forall s | FellToZero(b0, b2, s) ensures s in q2 {
      assert FellToZero(b0, b1, s) || FellToZero(b1, b2, s);
    }
  }

  lemma SlackCompose(f0: Files, b0: Blobs, f1: Files, b1: Blobs, f2: Files, b2: Blobs)
    requires SameSlack(f0, b0, f1, b1) && SameSlack(f1, b1, f2, b2)
    ensures SameSlack(f0, b0, f2, b2)
  {
  }

  /** What ListChildren returns is the list of active children. */
  lemma ListedChildren(store: Store, d: Id, kids: seq<Row>)
    requires Lists(store.files, kids, store.ChildIds(d))
    ensures ChildList(Live(store.files), d, kids)
  {
    var live := Live(store.files);
    assert forall x | x in live && live[x].parent == Some(d) :: x in store.ChildIds(d);
  }

  /** What a walk removes lies below its start. */
  lemma WalkSpares(m: Files, d: Id, kids: seq<Row>, k: nat)
    requires WellFormed(m) && d in Live(m) && k <= |kids| && ChildList(Live(m), d, kids)
    ensures Spared(m, Subtree(Live(m), d), m - Below(Live(m), kids, k))
  {
    WellFormedCut(m, Live(m));
    forall x | x in Below(Live(m), kids, k) ensures x in Subtree(Live(m), d) {
      var i :| 0 <= i < k && x in Subtree(Live(m), kids[i].id);
      ChildSubtreeSmaller(Live(m), d, kids[i].id);
    }
  }

  /** So does what a failed step takes from the next child. */
  lemma FailedStepSpares(m: Files, d: Id, kids: seq<Row>, k: nat, m': Files)
    requires WellFormed(m) && d in Live(m) && k < |kids| && ChildList(Live(m), d, kids)
    requires var now := m - Below(Live(m), kids, k); Spared(now, Subtree(Live(now), kids[k].id), m')
    ensures Spared(m, Subtree(Live(m), d), m')
  {
    WalkStep(m, d, kids, k);
    WalkSpares(m, d, kids, k + 1);
    var now := m - Below(Live(m), kids, k);
    forall x | x in m && x !in Subtree(Live(m), d) ensures x in m' && m'[x] == m[x] {
      assert x in now - Subtree(Live(now), kids[k].id);
    }
  }

  /** The log leads back from the tables `t1` to where it led from `t0`: the rows whatever the
      counts are, the counts too if they covered the rows (`cov`). */
  ghost predicate LeadsBack(cov: bool, err: Option<Error>, undo0: seq<UndoOp>, t0: Tables, undo1: seq<UndoOp>,
                            t1: Tables) {
    && Replay(undo1, t1).files == Replay(undo0, t0).files
    && (cov ==> Replay(undo1, Compensated(err, t1)) == Replay(undo0, t0))
  }

  /** Rows come from rows, whatever the counts are. */
  lemma {:induction false} ReplayFiles(undo: seq<UndoOp>, t: Tables, t': Tables)
    requires t.files == t'.files
    ensures Replay(undo, t).files == Replay(undo, t').files
    decreases |undo|
  {
    if undo != [] {
      ReplayFiles(undo[..|undo| - 1], ApplyUndo(undo[|undo| - 1], t), ApplyUndo(undo[|undo| - 1], t'));
    }
  }

  /** The counts cover the rows and the queue is in order. */
  ghost predicate Counted(cov: bool, t: Tables, queued: seq<Sha>, pending: seq<Path>, f: Files) {
    cov ==> Covered(t.files, t.blobs) && Queued(queued, pending, t.blobs, f)
  }

  /** Every surplus is kept, and what fell to zero is queued. */
  ghost predicate Dropped(cov: bool, quiet: bool, t: Tables, t': Tables, queued: seq<Sha>) {
    cov ==> SameSlack(t.files, t.blobs, t'.files, t'.blobs) && (quiet ==> QueuesAll(t.blobs, t'.blobs, queued))
  }

  lemma DroppedThen(cov: bool, q1: bool, t: Tables, t1: Tables, queued1: seq<Sha>, q2: bool, t2: Tables,
                    queued2: seq<Sha>)
    requires Dropped(cov, q1, t, t1, queued1) && Dropped(cov, q2, t1, t2, queued2) && queued1 <= queued2
    ensures Dropped(cov, q1 && q2, t, t2, queued2)
  {
    if cov {
      SlackCompose(t.files, t.blobs, t1.files, t1.blobs, t2.files, t2.blobs);
      if q1 && q2 { QueuesCompose(t.files, t.blobs, t1.files, t1.blobs, t2.files, t2.blobs, queued1, queued2); }
    }
  }

  /** Fewer rows at equal surplus stay covered. */
  lemma StaysCounted(cov: bool, q: bool, t: Tables, t': Tables, queued: seq<Sha>, pending: seq<Path>, f: Files)
    requires cov ==> Covered(t.files, t.blobs) && Queued(queued, pending, t'.blobs, f)
    requires Dropped(cov, q, t, t', queued) && Cut(t'.files, t.files)
    ensures Counted(cov, t', queued, pending, f)
  {
  }

  class Deleter {
    const store: Store

    constructor (store: Store)
      ensures this.store == store
    {
      this.store := store;
    }

    /** Remove a row and log the removal. */
    method RemoveRow(row: Row, log: UndoLog, ghost f: Files) returns (err: Option<Error>)
      requires row.id in store.files && store.files[row.id] == row.file.(deletedAt := None)
      requires Cut(store.files, f) && LoggedFrom(log.undo, f)
      modifies store`files, store`steps, log`undo
      ensures LoggedFrom(log.undo, f)
      ensures store.steps == old(store.steps) + 1
      ensures err == if old(store.steps) in store.faults then Some(StepFailed) else None
      ensures store.files == if err.None? then old(store.files) - {row.id} else old(store.files)
      ensures Replay(log.undo, store.Now()) == Replay(old(log.undo), old(store.Now()))
    {
      UndoneDelete(store.Now(), row);
      err := store.DeleteFile(row.id);
      if err.None? {
        ReplayLast(log.undo, UndoDeleteFile(row), store.Now());
        log.undo := log.undo + [UndoDeleteFile(row)];
      }
    }

    /** `cov` says that the counts cover the rows; what is said of rows does not need it. */
    method DeleteFileWithUndoDeferred(row: Row, log: UndoLog, ghost f: Files, ghost cov: bool)
      returns (err: Option<Error>)
      requires row.id in store.files && store.files[row.id] == row.file.(deletedAt := None)
      requires Counted(cov, store.Now(), log.queued, log.pending, f)
      requires Cut(store.files, f) && LoggedFrom(log.undo, f)
      modifies store`files, store`blobs, store`steps, log
      ensures LoggedFrom(log.undo, f) && old(store.steps) < store.steps
      ensures err.Some? ==> !store.Quiet(old(store.steps), store.steps)
      ensures err == if old(store.steps) in store.faults then Some(StepFailed)
                     else if row.file.sha.None? then None
                     else if old(store.steps) + 1 in store.faults then Some(StepFailed)
                     else if row.file.sha.value in old(store.blobs) && old(store.steps) + 2 in store.faults
                     then Some(RefCountUnread(row.file.sha.value))
                     else None
      ensures LeadsBack(cov, err, old(log.undo), old(store.Now()), log.undo, store.Now())
      ensures cov ==> Queued(log.queued, log.pending, store.blobs, f)
      ensures old(log.queued) <= log.queued
      ensures err.None? ==> store.files == old(store.files) - {row.id}
      ensures Spared(old(store.files), {row.id}, store.files)
      ensures err.None? ==>
                Dropped(cov, store.Quiet(old(store.steps), store.steps), old(store.Now()), store.Now(), log.queued)
    {
      if cov { RemoveKeepsSlack(store.files, store.blobs, row.id); }
      err := RemoveRow(row, log, f);
      if err.None? && row.file.sha.Some? {
        assert row.id in Namers(f, row.file.sha.value);
        err := LowerRef(row.file.sha.value, log, f, cov);
      }
    }

    /** The second half of deleteFileWithUndoDeferred, for a row that names content. */
    method LowerRef(s: Sha, log: UndoLog, ghost f: Files, ghost cov: bool) returns (err: Option<Error>)
      requires cov ==> s in store.blobs && store.blobs[s].refs > 0 && Count(f, s) > 0
                       && Queued(log.queued, log.pending, store.blobs, f)
      modifies store`blobs, store`steps, log
      ensures LoggedFrom(old(log.undo), f) ==> LoggedFrom(log.undo, f)
      ensures old(store.steps) < store.steps
      ensures err.Some? ==> !store.Quiet(old(store.steps), store.steps)
      ensures err == if old(store.steps) in store.faults then Some(StepFailed)
                     else if s in old(store.blobs) && old(store.steps) + 1 in store.faults then Some(RefCountUnread(s))
                     else None
      ensures LeadsBack(cov, err, old(log.undo), old(store.Now()), log.undo, store.Now())
      ensures cov ==> Queued(log.queued, log.pending, store.blobs, f)
      ensures old(log.queued) <= log.queued
      ensures err.None? ==> store.blobs == Decr(old(store.blobs), s)
      ensures cov && store.Quiet(old(store.steps), store.steps) ==>
                QueuesAll(old(store.blobs), store.blobs, log.queued)
    {
      ghost var undo0, t0 := log.undo, store.Now();
      if cov {
        UndoneDecr(store.blobs, s);
        QueuedDecr(log.queued, log.pending, store.blobs, f, s);
      }
      var count;
      err, count := store.DecrBlobRef(s);
      ReplayFiles(undo0, store.Now(), t0);
      if err.None? {
        ReplayLast(log.undo, UndoDecrRef(s), store.Now());
        log.undo := log.undo + [UndoDecrRef(s)];
        ReplayFiles(undo0, ApplyUndo(UndoDecrRef(s), store.Now()), t0);
        if count <= 0 {
          var lookup, blob := store.GetBlobBySha(s);
          if lookup.None? && blob.Some? && blob.value.path != "" {
            log.pending := log.pending + [blob.value.path];
            log.queued := log.queued + [s];
          }
        }
      }
    }

    /** Depth first: the children's subtrees, then the directory's own row. */
    method DeleteDirDeferredWithUndo(row: Row, ns: string, log: UndoLog, ghost f: Files, ghost cov: bool)
      returns (err: Option<Error>)
      requires row.id in store.files && store.files[row.id] == row.file.(deletedAt := None) && row.file.isDir
      requires WellFormed(store.files) && Counted(cov, store.Now(), log.queued, log.pending, f)
      requires Cut(store.files, f) && LoggedFrom(log.undo, f)
      modifies store`files, store`blobs, store`steps, log
      ensures LoggedFrom(log.undo, f) && old(store.steps) <= store.steps
      ensures err.Some? && err != Some(Forbidden) ==> !store.Quiet(old(store.steps), store.steps)
      ensures err == Some(Forbidden) <==> row.file.ns != ns
      ensures LeadsBack(cov, err, old(log.undo), old(store.Now()), log.undo, store.Now())
      ensures cov ==> Queued(log.queued, log.pending, store.blobs, f)
      ensures old(log.queued) <= log.queued
      ensures err.None? ==> store.files == old(store.files) - Subtree(Live(old(store.files)), row.id)
      ensures Spared(old(store.files), Subtree(Live(old(store.files)), row.id), store.files)
      ensures err.None? ==>
                Dropped(cov, store.Quiet(old(store.steps), store.steps), old(store.Now()), store.Now(), log.queued)
      decreases |Subtree(Live(store.files), row.id)|, 3
    {
      if row.file.ns != ns { return Some(Forbidden); }
      var kids;
      err, kids := store.ListChildren(row.id);
      if err.Some? { return; }
      ListedChildren(store, row.id, kids);
      ghost var step1 := store.steps;
      err := DeleteChildren(row, kids, ns, log, f, cov);
      store.QuietSplit(old(store.steps), step1, store.steps);
      if err.Some? { return; }
      ghost var step2 := store.steps;
      err := DeleteOwnRow(row, kids, log, f, old(store.Now()), cov, store.Quiet(old(store.steps), step2));
      store.QuietSplit(old(store.steps), step2, store.steps);
    }

    /** The directory's row, once nothing is left below it. */
    method DeleteOwnRow(row: Row, ghost kids: seq<Row>, log: UndoLog, ghost f: Files, ghost t: Tables, ghost cov: bool,
                        ghost quiet: bool)
      returns (err: Option<Error>)
      requires row.id in t.files && t.files[row.id] == row.file.(deletedAt := None) && row.file.isDir
      requires WellFormed(t.files) && ChildList(Live(t.files), row.id, kids)
      requires store.files == t.files - Below(Live(t.files), kids, |kids|)
      requires cov ==> Covered(t.files, t.blobs) && Queued(log.queued, log.pending, store.blobs, f)
      requires Dropped(cov, quiet, t, store.Now(), log.queued) && Cut(store.files, f) && LoggedFrom(log.undo, f)
      modifies store`files, store`steps, log`undo
      ensures LoggedFrom(log.undo, f) && store.steps == old(store.steps) + 1
      ensures err == if old(store.steps) in store.faults then Some(StepFailed) else None
      ensures LeadsBack(cov, err, old(log.undo), old(store.Now()), log.undo, store.Now())
      ensures err.None? ==> store.files == t.files - Subtree(Live(t.files), row.id)
      ensures err.None? ==> Dropped(cov, quiet, t, store.Now(), log.queued)
      ensures Spared(t.files, Subtree(Live(t.files), row.id), store.files)
    {
      ghost var t1 := store.Now();
      WalkEnd(t.files, row.id, kids);
      WalkSpares(t.files, row.id, kids, |kids|);
      StaysCounted(cov, quiet, t, t1, log.queued, log.pending, f);
      if cov { RemoveKeepsSlack(t1.files, t1.blobs, row.id); }
      err := RemoveRow(row, log, f);
      if err.None? { DroppedThen(cov, quiet, t, t1, log.queued, true, store.Now(), log.queued); }
    }

    /** A child is a directory or a file; either way its whole subtree goes. */
    method DeleteChild(row: Row, ns: string, log: UndoLog, ghost f: Files, ghost cov: bool) returns (err: Option<Error>)
      requires row.id in store.files && store.files[row.id] == row.file && Active(row.file) && row.file.ns == ns
      requires WellFormed(store.files) && Counted(cov, store.Now(), log.queued, log.pending, f)
      requires Cut(store.files, f) && LoggedFrom(log.undo, f)
      modifies store`files, store`blobs, store`steps, log
      ensures LoggedFrom(log.undo, f) && old(store.steps) <= store.steps
      ensures err.Some? ==> !store.Quiet(old(store.steps), store.steps) && err != Some(Forbidden)
      ensures LeadsBack(cov, err, old(log.undo), old(store.Now()), log.undo, store.Now())
      ensures cov ==> Queued(log.queued, log.pending, store.blobs, f)
      ensures old(log.queued) <= log.queued
      ensures err.None? ==> store.files == old(store.files) - Subtree(Live(old(store.files)), row.id)
      ensures Spared(old(store.files), Subtree(Live(old(store.files)), row.id), store.files)
      ensures err.None? ==>
                Dropped(cov, store.Quiet(old(store.steps), store.steps), old(store.Now()), store.Now(), log.queued)
      decreases |Subtree(Live(store.files), row.id)|, 4
    {
      if row.file.isDir {
        err := DeleteDirDeferredWithUndo(row, ns, log, f, cov);
      } else {
        FileSubtree(store.files, Live(store.files), row.id);
        err := DeleteFileWithUndoDeferred(row, log, f, cov);
      }
    }

    /** The loop over the children list. */
    method DeleteChildren(row: Row, kids: seq<Row>, ns: string, log: UndoLog, ghost f: Files, ghost cov: bool)
      returns (err: Option<Error>)
      requires row.id in store.files && store.files[row.id] == row.file.(deletedAt := None) && row.file.isDir
      requires row.file.ns == ns && ChildList(Live(store.files), row.id, kids)
      requires WellFormed(store.files) && Counted(cov, store.Now(), log.queued, log.pending, f)
      requires Cut(store.files, f) && LoggedFrom(log.undo, f)
      modifies store`files, store`blobs, store`steps, log
      ensures LoggedFrom(log.undo, f) && old(store.steps) <= store.steps
      ensures err.Some? ==> !store.Quiet(old(store.steps), store.steps) && err != Some(Forbidden)
      ensures LeadsBack(cov, err, old(log.undo), old(store.Now()), log.undo, store.Now())
      ensures cov ==> Queued(log.queued, log.pending, store.blobs, f)
      ensures old(log.queued) <= log.queued
      ensures err.None? ==> store.files == old(store.files) - Below(Live(old(store.files)), kids, |kids|)
      ensures Spared(old(store.files), Subtree(Live(old(store.files)), row.id), store.files)
      ensures err.None? ==>
                Dropped(cov, store.Quiet(old(store.steps), store.steps), old(store.Now()), store.Now(), log.queued)
      decreases |Subtree(Live(store.files), row.id)|, 2
    {
      ghost var t := store.Now();
      err := None;
      WalkSpares(t.files, row.id, kids, |kids|);
      var k := 0;
      while k < |kids| && err.None?
        invariant k <= |kids| && old(store.steps) <= store.steps && LoggedFrom(log.undo, f)
        invariant err.Some? ==> !store.Quiet(old(store.steps), store.steps) && err != Some(Forbidden)
        invariant LeadsBack(cov, err, old(log.undo), t, log.undo, store.Now())
        invariant cov ==> Queued(log.queued, log.pending, store.blobs, f)
        invariant old(log.queued) <= log.queued
        invariant err.None? ==> store.files == t.files - Below(Live(t.files), kids, k)
        invariant err.None? ==> Dropped(cov, store.Quiet(old(store.steps), store.steps), t, store.Now(), log.queued)
        invariant err.Some? ==> Spared(t.files, Subtree(Live(t.files), row.id), store.files)
      {
        ghost var step1 := store.steps;
        err := DeleteNth(row, kids, k, ns, log, f, t, cov, store.Quiet(old(store.steps), step1));
        store.QuietSplit(old(store.steps), step1, store.steps);
        k := k + 1;
      }
    }

    /** One turn of that loop. */
    method DeleteNth(ghost row: Row, kids: seq<Row>, k: nat, ns: string, log: UndoLog, ghost f: Files,
                     ghost t: Tables, ghost cov: bool, ghost quiet: bool) returns (err: Option<Error>)
      requires row.id in Live(t.files) && row.file.ns == ns && row.file.isDir
      requires t.files[row.id] == row.file.(deletedAt := None)
      requires WellFormed(t.files) && k < |kids| && ChildList(Live(t.files), row.id, kids)
      requires store.files == t.files - Below(Live(t.files), kids, k)
      requires cov ==> Covered(t.files, t.blobs) && Queued(log.queued, log.pending, store.blobs, f)
      requires Dropped(cov, quiet, t, store.Now(), log.queued) && Cut(store.files, f) && LoggedFrom(log.undo, f)
      modifies store`files, store`blobs, store`steps, log
      ensures old(store.steps) <= store.steps && LoggedFrom(log.undo, f)
      ensures err.Some? ==> !store.Quiet(old(store.steps), store.steps) && err != Some(Forbidden)
      ensures LeadsBack(cov, err, old(log.undo), old(store.Now()), log.undo, store.Now())
      ensures cov ==> Queued(log.queued, log.pending, store.blobs, f)
      ensures old(log.queued) <= log.queued
      ensures err.None? ==> store.files == t.files - Below(Live(t.files), kids, k + 1)
      ensures err.None? ==>
                Dropped(cov, quiet && store.Quiet(old(store.steps), store.steps), t, store.Now(), log.queued)
      ensures err.Some? ==> Spared(t.files, Subtree(Live(t.files), row.id), store.files)
      decreases |Subtree(Live(t.files), row.id)|, 1
    {
      var child := kids[k];
      ghost var t1, q1 := store.Now(), log.queued;
      WalkStep(t.files, row.id, kids, k);
      StaysCounted(cov, quiet, t, t1, log.queued, log.pending, f);
      assert Edge(t.files, child.id, row.id);
      err := DeleteChild(child, ns, log, f, cov);
      if err.Some? {
        FailedStepSpares(t.files, row.id, kids, k, store.files);
      } else {
        DroppedThen(cov, quiet, t, t1, q1, store.Quiet(old(store.steps), store.steps), store.Now(), log.queued);
      }
    }

    /** Newest entry first; a failed step is logged and skipped. */
    method RollbackDeleteUndo(undo: seq<UndoOp>)
      modifies store`files, store`blobs, store`steps
      ensures store.steps == old(store.steps) + |undo|
      ensures store.Now() == ReplayUnder(undo, old(store.Now()), store.faults, old(store.steps))
    {
      var i := |undo|;
      assert undo[..i] == undo;
      while i > 0
        invariant 0 <= i <= |undo| && store.steps == old(store.steps) + |undo| - i
        invariant ReplayUnder(undo[..i], store.Now(), store.faults, store.steps)
               == ReplayUnder(undo, old(store.Now()), store.faults, old(store.steps))
      {
        i := i - 1;
        assert undo[..i + 1][..i] == undo[..i];
        match undo[i] {
          case UndoDeleteFile(r) =>
            var _ := store.PutFile(r.id, r.file);
          case UndoDecrRef(s) =>
            var _ := store.IncrBlobRef(s);
        }
      }
    }

    /** A rollback after a failure, of the whole log: exact if nothing more fails. */
    method RollbackFailed(undo: seq<UndoOp>, ghost err: Option<Error>, ghost was: Tables, ghost cov: bool)
      requires LeadsBack(cov, err, [], was, undo, store.Now()) && LoggedFrom(undo, was.files)
      modifies store`files, store`blobs, store`steps
      ensures old(store.steps) <= store.steps
      ensures Cut(store.files, was.files) && Spared(old(store.files), {}, store.files)
      ensures store.Quiet(old(store.steps), store.steps) ==> store.files == was.files
      ensures cov && store.Quiet(old(store.steps), store.steps) ==> store.blobs == Unread(err, was.blobs)
    {
      ghost var t, mid := store.Now(), store.steps;
      ReplayExtends(undo, t);
      RollbackDeleteUndo(undo);
      ReplayStaysWithin(undo, t, store.faults, mid, was.files);
      ReplaySpares(undo, t, store.faults, mid);
      if store.Quiet(mid, store.steps) {
        QuietReplay(undo, t, store.faults, mid);
        if cov { UnreadReplay(undo, t, err, was); }
      }
    }

    /** The loop over the pending paths; a failed delete is logged and skipped. */
    method RemovePending(pending: seq<Path>)
      modifies store`disk, store`steps
      ensures store.steps == old(store.steps) + |pending|
      ensures store.disk.Keys <= old(store.disk).Keys
      ensures forall p | p in store.disk :: store.disk[p] == old(store.disk)[p]
      ensures forall p | p in old(store.disk) && p !in store.disk :: p in pending
      ensures store.Quiet(old(store.steps), store.steps) ==> forall p | p in pending :: p !in store.disk
    {
      for i := 0 to |pending|
        invariant store.steps == old(store.steps) + i
        invariant store.disk.Keys <= old(store.disk).Keys
        invariant forall p | p in store.disk :: store.disk[p] == old(store.disk)[p]
        invariant forall p | p in old(store.disk) && p !in store.disk :: p in pending[..i]
        invariant store.Quiet(old(store.steps), store.steps) ==> forall p | p in pending[..i] :: p !in store.disk
      {
        var _ := store.Remove(pending[i]);
      }
    }

    /** The loop of PurgeFromTrash for a single file: it stops at the first failure. */
    method RemovePendingOrFail(pending: seq<Path>) returns (err: Option<Error>)
      modifies store`disk, store`steps
      ensures old(store.steps) <= store.steps
      ensures store.disk.Keys <= old(store.disk).Keys
      ensures forall p | p in store.disk :: store.disk[p] == old(store.disk)[p]
      ensures forall p | p in old(store.disk) && p !in store.disk :: p in pending
      ensures err.None? ==> forall p | p in pending :: p !in store.disk
      ensures err.None? <==> store.Quiet(old(store.steps), store.steps)
    {
      for i := 0 to |pending|
        invariant store.steps == old(store.steps) + i && store.Quiet(old(store.steps), store.steps)
        invariant store.disk.Keys <= old(store.disk).Keys
        invariant forall p | p in store.disk :: store.disk[p] == old(store.disk)[p]
        invariant forall p | p in old(store.disk) && p !in store.disk :: p in pending[..i]
        invariant forall p | p in pending[..i] :: p !in store.disk
      {
        err := store.Remove(pending[i]);
        if err.Some? { return; }
      }
      err := None;
    }

    /** upload.go:933-955: the immediate deletion of one file, without undo. Wherever it stops,
        no count is too low and nothing but an unreferenced object is deleted; a count is left
        too high exactly when the row went and the lowering failed. */
    method DeleteFileNow(row: Row) returns (err: Option<Error>)
      requires row.id in store.files && store.files[row.id] == row.file
      requires Covered(store.files, store.blobs)
      modifies store`files, store`blobs, store`disk, store`steps
      ensures store.files == if old(store.steps) in store.faults then old(store.files) else old(store.files) - {row.id}
      ensures Covered(store.files, store.blobs)
      ensures Freed(old(store.blobs), old(store.disk), store.blobs, store.disk)
      ensures old(store.steps) in store.faults || old(store.steps) + 1 in store.faults ==>
                store.blobs == old(store.blobs) && store.disk == old(store.disk)
      ensures err.Some? <==>
                || old(store.steps) in store.faults
                || (row.file.sha.Some?
                    && (old(store.steps) + 1 in store.faults || old(store.steps) + 2 in store.faults))
      ensures store.Quiet(old(store.steps), store.steps) && row.file.sha.Some? ==>
                var s := row.file.sha.value;
                && store.blobs == Decr(old(store.blobs), s)
                && (store.blobs[s].refs == 0 ==> store.blobs[s].path !in store.disk)
      ensures var lost := old(store.steps) !in store.faults && row.file.sha.Some?
                && old(store.steps) + 1 in store.faults;
              (lost <==> !SameSlack(old(store.files), old(store.blobs), store.files, store.blobs))
              && (lost ==> err.Some?)
    {
      ghost var f, b := store.files, store.blobs;
      RemoveKeepsSlack(f, b, row.id);
      err := store.DeleteFile(row.id);
      if err.Some? { return; }
      CountRemoved(f, b, row.id);
      if row.file.sha.Some? { err := LowerAndFree(row.file.sha.value); }
    }

    /** The second half: the count, and the object of the last reference. */
    method LowerAndFree(s: Sha) returns (err: Option<Error>)
      requires s in store.blobs && store.blobs[s].refs > 0
      modifies store`blobs, store`disk, store`steps
      ensures old(store.steps) < store.steps
      ensures store.blobs == if old(store.steps) in store.faults then old(store.blobs) else Decr(old(store.blobs), s)
      ensures Freed(old(store.blobs), old(store.disk), store.blobs, store.disk)
      ensures old(store.steps) in store.faults ==> err.Some? && store.disk == old(store.disk)
      ensures err.Some? <==> old(store.steps) in store.faults || old(store.steps) + 1 in store.faults
      ensures store.Quiet(old(store.steps), store.steps) && store.blobs[s].refs == 0 ==>
                store.blobs[s].path !in store.disk
    {
      var count;
      err, count := store.DecrBlobRef(s);
      if err.None? && count <= 0 {
        var lookup, blob := store.GetBlobBySha(s);
        if lookup.None? && blob.Some? { var _ := store.Remove(blob.value.path); }
      }
    }

    /** The part of PurgeFromTrash that handles a single file (trash.go:86-98). A failed
        object delete is reported although the metadata is gone: `committed` tells. */
    method PurgeFile(row: Row)
      returns (err: Option<Error>, ghost committed: bool, ghost mid: nat, ghost queue: seq<Sha>)
      requires row.id in store.files && store.files[row.id] == row.file.(deletedAt := None)
      modifies store`files, store`blobs, store`disk, store`steps
      ensures old(store.steps) <= mid <= store.steps
      ensures !committed ==> !store.Quiet(old(store.steps), mid)
      ensures err.None? ==> committed
      ensures store.Quiet(old(store.steps), store.steps) ==> err.None?
      ensures !committed ==>
                err == Some(if old(store.steps) in store.faults || row.file.sha.None?
                            || old(store.steps) + 1 in store.faults
                                         then StepFailed else RefCountUnread(row.file.sha.value))
      ensures committed ==> store.files == old(store.files) - {row.id}
      ensures committed ==> (err.None? <==> store.Quiet(mid, store.steps))
      ensures !committed ==>
                NotDeleted(Covered(old(store.files), old(store.blobs)), store.Quiet(mid, store.steps), err, {row.id},
                                        old(store.Now()), old(store.disk), store.Now(), store.disk)
      ensures committed && Covered(old(store.files), old(store.blobs)) ==>
                Cleared(store.Quiet(old(store.steps), mid), store.Quiet(mid, store.steps), queue,
                        old(store.Now()), old(store.disk), store.Now(), store.disk)
    {
      ghost var t, disk0, cov := store.Now(), store.disk, Covered(store.files, store.blobs);
      var log := new UndoLog();
      err := DeleteFileWithUndoDeferred(row, log, t.files, cov);
      committed, mid, queue := err.None?, store.steps, log.queued;
      if err.Some? {
        RollbackFailed(log.undo, err, t, cov);
      } else {
        err := RemovePendingOrFail(log.pending);
        if cov {
          ClearedBy(store.Quiet(old(store.steps), mid), store.Quiet(mid, store.steps), queue, log.pending, t, disk0,
                    store.Now(), store.disk);
        }
      }
    }

    /** The whole operation. `mid` is the step at which metadata removal ended, `queue` the
        blobs whose objects were handed to the storage. */
    method DeleteDirDeferred(row: Row, ns: string) returns (err: Option<Error>, ghost mid: nat, ghost queue: seq<Sha>)
      requires row.id in store.files && store.files[row.id] == row.file.(deletedAt := None) && row.file.isDir
      requires WellFormed(store.files)
      modifies store`files, store`blobs, store`disk, store`steps
      ensures old(store.steps) <= mid <= store.steps
      ensures err == Some(Forbidden) <==> row.file.ns != ns
      ensures err.Some? && err != Some(Forbidden) ==> !store.Quiet(old(store.steps), mid)
      ensures err.None? ==> store.files == old(store.files) - Subtree(Live(old(store.files)), row.id)
      ensures err.Some? ==> NotDeleted(Covered(old(store.files), old(store.blobs)), store.Quiet(mid, store.steps), err,
                                       Subtree(Live(old(store.files)), row.id),
                                       old(store.Now()), old(store.disk), store.Now(), store.disk)
      ensures err.None? && Covered(old(store.files), old(store.blobs)) ==>
                Cleared(store.Quiet(old(store.steps), mid), store.Quiet(mid, store.steps), queue,
                        old(store.Now()), old(store.disk), store.Now(), store.disk)
    {
      ghost var t, disk0, cov := store.Now(), store.disk, Covered(store.files, store.blobs);
      var log := new UndoLog();
      err := DeleteDirDeferredWithUndo(row, ns, log, t.files, cov);
      mid, queue := store.steps, log.queued;
      if err.Some? {
        RollbackFailed(log.undo, err, t, cov);
      } else {
        RemovePending(log.pending);
        if cov {
          ClearedBy(store.Quiet(old(store.steps), mid), store.Quiet(mid, store.steps), queue, log.pending, t, disk0,
                    store.Now(), store.disk);
        }
      }
    }
  }

  /** A deletion that failed: no object is gone; only rows of the tree can be missing; with a
      rollback that met no failure (`quiet`) the rows are all back, and, if the counts covered
      the rows, so are the counts, but for one that could not be read back. */
  ghost predicate NotDeleted(cov: bool, quiet: bool, err: Option<Error>, tree: set<Id>, t: Tables, d: Disk, t': Tables,
                             d': Disk) {
    && d' == d && Cut(t'.files, t.files) && Spared(t.files, tree, t'.files)
    && (quiet ==> t'.files == t.files && (cov ==> t'.blobs == Unread(err, t.blobs)))
  }

  /** A deletion that succeeded, by its counts and objects: every surplus is kept; only objects
      of blobs nobody references are gone; each blob that fell to zero was queued once, all of
      them if no lookup failed, and the objects are gone if no delete failed. */
  ghost predicate Cleared(looked: bool, freed: bool, queue: seq<Sha>, t: Tables, d: Disk, t': Tables, d': Disk) {
    && SameSlack(t.files, t.blobs, t'.files, t'.blobs) && Freed(t.blobs, d, t'.blobs, d')
    && OnceEach(queue, t.blobs, t'.blobs)
    && (looked ==> QueuesAll(t.blobs, t'.blobs, queue))
    && (freed ==> forall s | s in queue :: t'.blobs[s].path !in d')
  }

  lemma ClearedBy(looked: bool, freed: bool, queue: seq<Sha>, pending: seq<Path>, t: Tables, d: Disk, t': Tables,
                  d': Disk)
    requires Dropped(true, looked, t, t', queue) && Cut(t'.files, t.files) && Covered(t.files, t.blobs)
    requires Queued(queue, pending, t'.blobs, t.files)
    requires d'.Keys <= d.Keys && (forall p | p in d' :: d'[p] == d[p])
    requires (forall p | p in d && p !in d' :: p in pending)
    requires freed ==> forall p | p in pending :: p !in d'
    ensures Cleared(looked, freed, queue, t, d, t', d')
  {
    SlackOnlyFalls(t.files, t.blobs, t'.files, t'.blobs);
    forall p | p in d && p !in d' ensures exists s :: s in t'.blobs && t'.blobs[s].refs == 0 && t'.blobs[s].path == p {
      var i :| 0 <= i < |pending| && pending[i] == p;
      assert queue[i] in t'.blobs;
    }
    forall i | 0 <= i < |queue|
      ensures t'.blobs[queue[i]].path in pending
    {
      assert pending[i] == t'.blobs[queue[i]].path;
    }
  }

  /** A row that goes while its count stays. */
  lemma CountRemoved(f: Files, b: Blobs, x: Id)
    requires x in f && Covered(f, b)
    ensures Covered(f - {x}, b)
    ensures SameSlack(f, b, f - {x}, b) <==> f[x].sha.None?
  {
    forall s | s in b ensures Count(f, s) == Count(f - {x}, s) + if f[x].sha == Some(s) then 1 else 0 {
      CountRemove(f, x, s);
    }
    if f[x].sha.Some? { assert f[x].sha.value in b; }
  }

  /** The blobs table after a rollback: only a count that could not be read back differs. */
  function Unread(err: Option<Error>, blobs: Blobs): Blobs {
    match err
    case Some(RefCountUnread(s)) => Decr(blobs, s)
    case _ => blobs
  }

  lemma UnreadReplay(undo: seq<UndoOp>, t: Tables, err: Option<Error>, was: Tables)
    requires Replay(undo, Compensated(err, t)) == was
    ensures Replay(undo, t) == was.(blobs := Unread(err, was.blobs))
  {
    match err
    case Some(RefCountUnread(s)) => ReplayIncr(undo, t, s);
    case _ =>
  }

  /** Every queued blob fell to zero in this operation, and is queued once. */
  ghost predicate OnceEach(queue: seq<Sha>, b0: Blobs, b1: Blobs) {
    && (forall i, j | 0 <= i < j < |queue| :: queue[i] != queue[j])
    && (forall s | s in queue :: s in b0 && s in b1 && b0[s].refs > 0 && b1[s].refs == 0)
  }

  /** Deleting rows at equal surplus lowers no count below zero and raises none. */
  lemma SlackOnlyFalls(f0: Files, b0: Blobs, f1: Files, b1: Blobs)
    requires SameSlack(f0, b0, f1, b1) && Cut(f1, f0)
    ensures forall s | s in b0 :: b1[s].refs <= b0[s].refs
  {
    forall s | s in b0 ensures b1[s].refs <= b0[s].refs {
      CountSplit(f0, f0.Keys - f1.Keys, s);
      assert f0 - (f0.Keys - f1.Keys) == f1;
    }
  }
}
