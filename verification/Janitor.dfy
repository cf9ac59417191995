/** The retention sweep over the recycle bin (internal/lifecycle/trash_janitor.go:51-76). */
module Janitors {
  import opened Types
  import opened Forest
  import opened Refs
  import opened Stores
  import opened Tree
  import opened TrashTables
  import opened Deletion
  import opened RecycleBins

  /** Trashed at or before the cutoff, by the stored time. */
  predicate Expired(m: Files, x: Id, cutoff: Time) {
    x in m && m[x].deletedAt.Some? && m[x].deletedAt.value <= cutoff
  }

  /** What the sweep purges: expired rows whose parent is not in the bin. */
  predicate Due(m: Files, x: Id, cutoff: Time) {
    Expired(m, x, cutoff) && !(m[x].parent.Some? && m[x].parent.value in m && !Active(m[m[x].parent.value]))
  }

  ghost function BinTree(m: Files, x: Id): set<Id>
    requires x in m
  {
    Subtree(Trashed(m, m[x].ns), x)
  }

  /** Going down in the bin, rows were trashed no later. */
  lemma {:induction false} OlderBelow(m: Files, r: Id, x: Id, n: nat)
    requires TrashOrdered(m) && r in m && !Active(m[r]) && Up(Trashed(m, m[r].ns), x, n) == Some(r)
    ensures x in Trashed(m, m[r].ns) && m[x].deletedAt.value <= m[r].deletedAt.value
    decreases n
  {
    var bin := Trashed(m, m[r].ns);
    UpTop(bin, x, n, r);
    if n > 0 {
      var p := bin[x].parent.value;
      OlderBelow(m, r, p, n - 1);
      assert Edge(m, x, p);
    }
  }

  lemma TreeExpired(m: Files, r: Id, cutoff: Time, x: Id)
    requires TrashOrdered(m) && Expired(m, r, cutoff) && x in BinTree(m, r)
    ensures Expired(m, x, cutoff)
  {
    var n: nat :| Up(Trashed(m, m[r].ns), x, n) == Some(r);
    OlderBelow(m, r, x, n);
  }

  // ---------- runs in which purges may fail ----------

  /** The files a purge leaves, whether or not it failed: rows outside the tree are untouched,
      those inside are gone, as they were or active again. */
  ghost predicate PurgeLeaves(m: Files, r: Id, m': Files) {
    && m'.Keys <= m.Keys
    && Spared(m, if r in m then BinTree(m, r) else {}, m')
    && forall x | x in m' :: m'[x] == m[x] || m'[x] == m[x].(deletedAt := None)
  }

  /** Rows of `m0` are untouched or were expired. */
  ghost predicate OnlyExpired(m0: Files, m: Files, cutoff: Time) {
    && m.Keys <= m0.Keys
    && (forall x | x in m0 :: Expired(m0, x, cutoff) || (x in m && m[x] == m0[x]))
    && forall x | x in m :: m[x] == m0[x] || m[x] == m0[x].(deletedAt := None)
  }

  lemma PurgeOnlyExpired(m0: Files, m: Files, cutoff: Time, r: Id, m': Files)
    requires TrashOrdered(m0) && OnlyExpired(m0, m, cutoff) && Expired(m0, r, cutoff) && PurgeLeaves(m, r, m')
    ensures OnlyExpired(m0, m', cutoff)
  {
    if r in m {
      forall x | x in BinTree(m, r) ensures Expired(m0, x, cutoff) {
        UnderMono(Trashed(m0, m0[r].ns), Trashed(m, m[r].ns), r, x);
        TreeExpired(m0, r, cutoff, x);
      }
      forall x | x in m0 ensures Expired(m0, x, cutoff) || (x in m' && m'[x] == m0[x]) {
        if !Expired(m0, x, cutoff) { assert x in m && x !in BinTree(m, r); }
      }
    }
  }

  /** A due row that is still there hangs below no trashed one. */
  lemma DueParentOk(m0: Files, m: Files, cutoff: Time, r: Id)
    requires OnlyExpired(m0, m, cutoff) && Due(m0, r, cutoff) && r in m
    ensures ParentOk(m, r)
  {
  }

  // ---------- a sweep without failures ----------

  /** The rows a sweep removes. */
  ghost function Swept(m: Files, due: set<Id>): set<Id> {
    set x | x in m && exists r :: r in due && r in m && x in BinTree(m, r)
  }

  ghost function DueIds(m: Files, cutoff: Time): set<Id> { set x | x in m && Due(m, x, cutoff) }

  /** Trees of different due rows share nothing. */
  lemma TreesApart(m: Files, a: Id, b: Id, cutoff: Time, x: Id)
    requires Acyclic(m) && Due(m, a, cutoff) && Due(m, b, cutoff) && a != b
    ensures !(x in BinTree(m, a) && x in BinTree(m, b))
  {
    if x in BinTree(m, a) && x in BinTree(m, b) {
      var bin := Trashed(m, m[a].ns);
      assert bin == Trashed(m, m[b].ns);
      UnderLinear(bin, a, b, x);
      UnderStep(bin, a, b);
      UnderStep(bin, b, a);
      if Under(bin, a, b) { UnderIn(bin, a, bin[b].parent.value); } else { UnderIn(bin, b, bin[a].parent.value); }
    }
  }

  /** So purging some leaves the others' trees whole. */
  lemma TreeStays(m: Files, done: set<Id>, r: Id, cutoff: Time)
    requires Acyclic(m) && Due(m, r, cutoff) && r !in done && forall d | d in done :: Due(m, d, cutoff)
    ensures r in m - Swept(m, done) && BinTree(m - Swept(m, done), r) == BinTree(m, r)
  {
    var gone, bin := Swept(m, done), Trashed(m, m[r].ns);
    UnderStep(bin, r, r);
    forall y | y in gone ensures y !in BinTree(m, r) {
      var d :| d in done && d in m && y in BinTree(m, d);
      TreesApart(m, d, r, cutoff, y);
    }
    SubtreeKept(bin, gone, r);
    assert Trashed(m - gone, m[r].ns) == bin - gone;
  }

  lemma SweptMore(m: Files, done: set<Id>, r: Id)
    requires r in m
    ensures Swept(m, done + {r}) == Swept(m, done) + BinTree(m, r)
  {
  }

  lemma SweptExpired(m: Files, cutoff: Time, x: Id)
    requires TrashOrdered(m) && x in Swept(m, DueIds(m, cutoff))
    ensures Expired(m, x, cutoff)
  {
    var r :| r in DueIds(m, cutoff) && r in m && x in BinTree(m, r);
    TreeExpired(m, r, cutoff, x);
  }

  /** The stored time is a whole second. A row trashed at `at`, with no trashed parent, goes in a
      sweep exactly when the cutoff has reached that second: early, when the cutoff lies in the
      fraction that was dropped, and then by less than a second. */
  lemma EarlyByLessThanASecond(m: Files, x: Id, at: Time, cutoff: Time)
    requires TrashOrdered(m) && x in m && m[x].deletedAt == Some(Seconds(at))
    requires m[x].parent.Some? && m[x].parent.value in m ==> Active(m[m[x].parent.value])
    ensures x in Swept(m, DueIds(m, cutoff)) <==> Seconds(at) <= cutoff
    ensures x in Swept(m, DueIds(m, cutoff)) && cutoff < at ==> at - cutoff < SECOND && at % SECOND != 0
  {
    if Seconds(at) <= cutoff {
      UnderStep(Trashed(m, m[x].ns), x, x);
      assert x in DueIds(m, cutoff) && x in BinTree(m, x);
    } else if x in Swept(m, DueIds(m, cutoff)) {
      SweptExpired(m, cutoff, x);
    }
  }

  /** The first rows of a list, by their keys. */
  ghost predicate Indexed(m: Files, rows: seq<Row>, k: nat, byID: Files)
    requires k <= |rows|
  {
    byID.Keys == IdsOf(rows[..k]) && forall x | x in byID :: x in m && byID[x] == m[x]
  }

  lemma IndexedSnoc(m: Files, rows: seq<Row>, k: nat, byID: Files)
    requires Lists(m, rows, m.Keys) && k < |rows| && Indexed(m, rows, k, byID)
    ensures Indexed(m, rows, k + 1, byID[rows[k].id := rows[k].file])
  {
    IdsSnoc(rows[..k], rows[k]);
    assert rows[..k + 1] == rows[..k] + [rows[k]];
  }

  class Janitor {
    const bin: RecycleBin
    const retention: Time

    constructor (bin: RecycleBin, retention: Time)
      ensures this.bin == bin && this.retention == retention
    {
      this.bin, this.retention := bin, retention;
    }

    /** One purge of the sweep: what it leaves, even when it fails and whatever the counts. */
    method PurgeOne(id: Id, ns: string) returns (err: Option<Error>)
      requires bin.deleter.store == bin.store
      requires Sound(bin.store.files, bin.store.nextId)
      requires id in bin.store.files ==> bin.store.files[id].ns == ns && ParentOk(bin.store.files, id)
      modifies bin.store`files, bin.store`blobs, bin.store`disk, bin.store`steps
      ensures old(bin.store.steps) <= bin.store.steps && Sound(bin.store.files, bin.store.nextId)
      ensures PurgeLeaves(old(bin.store.files), id, bin.store.files)
      ensures bin.store.Quiet(old(bin.store.steps), bin.store.steps) && id in Trashed(old(bin.store.files), ns) ==>
                && bin.store.files == old(bin.store.files) - BinTree(old(bin.store.files), id)
                && (Covered(old(bin.store.files), old(bin.store.blobs)) ==>
                      SameSlack(old(bin.store.files), old(bin.store.blobs), bin.store.files, bin.store.blobs))
    {
      ghost var m := bin.store.files;
      if id !in m { forall x ensures x !in Subtree(Trashed(m, ns), id) { NoTree(Trashed(m, ns), id, x); } }
      ghost var done, committed, mid, queue;
      err, done, committed, mid, queue := bin.PurgeFromTrash(id, ns);
    }

    /** The map of the snapshot is the table. */
    method ById(rows: seq<Row>, ghost m: Files) returns (byID: map<Id, File>)
      requires Lists(m, rows, m.Keys)
      ensures byID == m
    {
      byID := map[];
      for k := 0 to |rows|
        invariant Indexed(m, rows, k, byID)
      {
        IndexedSnoc(m, rows, k, byID);
        byID := byID[rows[k].id := rows[k].file];
      }
      assert rows[..|rows|] == rows;
      AllListed(m, rows);
    }

    /** Expired, and its parent is not in the bin. */
    method IsDue(row: Row, byID: map<Id, File>, cutoff: Time) returns (due: bool)
      requires row.id in byID && byID[row.id] == row.file
      ensures due <==> Due(byID, row.id, cutoff)
    {
      var f := row.file;
      var parentTrashed := f.parent.Some? && f.parent.value in byID && byID[f.parent.value].deletedAt.Some?;
      due := f.deletedAt.Some? && f.deletedAt.value <= cutoff && !parentTrashed;
    }

    /** Whatever fails, no row that had not expired is touched and the table stays sound. With
        nothing failing, exactly the trees of the due rows are gone, and counts that covered the
        rows keep every surplus. */
    method Reap(now: Time) returns (ghost cutoff: Time)
      requires bin.deleter.store == bin.store && Sound(bin.store.files, bin.store.nextId)
      modifies bin.store`files, bin.store`blobs, bin.store`disk, bin.store`steps
      ensures cutoff == now - retention && Sound(bin.store.files, bin.store.nextId)
      ensures OnlyExpired(old(bin.store.files), bin.store.files, cutoff)
      ensures bin.store.Quiet(old(bin.store.steps), bin.store.steps) ==>
                Reaped(old(bin.store.Now()), bin.store.Now(), DueIds(old(bin.store.files), cutoff))
    {
      cutoff := now - retention;
      ghost var step0 := bin.store.steps;
      var err, rows := bin.store.ListAllFiles();
      if err.None? {
        ghost var step1 := bin.store.steps;
        ReapRows(rows, now - retention);
        bin.store.QuietSplit(step0, step1, bin.store.steps);
      }
    }

    /** The loop over the snapshot. */
    method ReapRows(rows: seq<Row>, cutoff: Time)
      requires bin.deleter.store == bin.store && Sound(bin.store.files, bin.store.nextId)
      requires Lists(bin.store.files, rows, bin.store.files.Keys)
      modifies bin.store`files, bin.store`blobs, bin.store`disk, bin.store`steps
      ensures old(bin.store.steps) <= bin.store.steps && Sound(bin.store.files, bin.store.nextId)
      ensures OnlyExpired(old(bin.store.files), bin.store.files, cutoff)
      ensures bin.store.Quiet(old(bin.store.steps), bin.store.steps) ==>
                Reaped(old(bin.store.Now()), bin.store.Now(), DueIds(old(bin.store.files), cutoff))
    {
      ghost var t := bin.store.Now();
      var byID := ById(rows, t.files);
      ghost var due: set<Id> := {};
      NothingReaped(t);
      for k := 0 to |rows|
        invariant old(bin.store.steps) <= bin.store.steps && due == DueAmong(t.files, rows, k, cutoff)
        invariant Sound(bin.store.files, bin.store.nextId) && OnlyExpired(t.files, bin.store.files, cutoff)
        invariant bin.store.Quiet(old(bin.store.steps), bin.store.steps) ==> Reaped(t, bin.store.Now(), due)
      {
        DueSnoc(t.files, rows, k, cutoff);
        var isDue := IsDue(rows[k], byID, cutoff);
        if isDue {
          ghost var step1 := bin.store.steps;
          PurgeDue(rows[k], t, due, cutoff, bin.store.Quiet(old(bin.store.steps), step1));
          bin.store.QuietSplit(old(bin.store.steps), step1, bin.store.steps);
          due := due + {rows[k].id};
        }
      }
      AllDue(t.files, rows, cutoff);
    }

    /** One due row of the list. */
    method PurgeDue(row: Row, ghost t: Tables, ghost done: set<Id>, ghost cutoff: Time, ghost quiet: bool)
      requires bin.deleter.store == bin.store && Sound(bin.store.files, bin.store.nextId)
      requires Acyclic(t.files) && TrashOrdered(t.files) && OnlyExpired(t.files, bin.store.files, cutoff)
      requires quiet ==> Reaped(t, bin.store.Now(), done)
      requires row.id in t.files && t.files[row.id] == row.file && Due(t.files, row.id, cutoff) && row.id !in done
      requires forall d | d in done :: Due(t.files, d, cutoff)
      modifies bin.store`files, bin.store`blobs, bin.store`disk, bin.store`steps
      ensures old(bin.store.steps) <= bin.store.steps && Sound(bin.store.files, bin.store.nextId)
      ensures OnlyExpired(t.files, bin.store.files, cutoff)
      ensures quiet && bin.store.Quiet(old(bin.store.steps), bin.store.steps) ==>
                Reaped(t, bin.store.Now(), done + {row.id})
    {
      ghost var t1 := bin.store.Now();
      if row.id in t1.files { DueParentOk(t.files, t1.files, cutoff, row.id); }
      if quiet { TreeStays(t.files, done, row.id, cutoff); }
      var _ := PurgeOne(row.id, row.file.ns);
      PurgeOnlyExpired(t.files, t1.files, cutoff, row.id, bin.store.files);
      if quiet && bin.store.Quiet(old(bin.store.steps), bin.store.steps) {
        ReapedMore(t, t1, bin.store.Now(), done, row.id, cutoff);
      }
    }
  }

  /** The tables after a sweep without failures that has purged the trees of `done`. */
  ghost predicate Reaped(t: Tables, t': Tables, done: set<Id>) {
    && t'.files == t.files - Swept(t.files, done)
    && (Covered(t.files, t.blobs) ==> Covered(t'.files, t'.blobs) && SameSlack(t.files, t.blobs, t'.files, t'.blobs))
  }

  lemma NothingReaped(t: Tables)
    ensures Reaped(t, t, {})
  {
  }

  lemma ReapedMore(t: Tables, t1: Tables, t2: Tables, done: set<Id>, r: Id, cutoff: Time)
    requires Reaped(t, t1, done) && r in t1.files && t2.files == t1.files - BinTree(t1.files, r)
    requires Acyclic(t.files) && Due(t.files, r, cutoff) && r !in done
    requires forall d | d in done :: Due(t.files, d, cutoff)
    requires Covered(t1.files, t1.blobs) ==> SameSlack(t1.files, t1.blobs, t2.files, t2.blobs)
    ensures Reaped(t, t2, done + {r})
  {
    TreeStays(t.files, done, r, cutoff);
    SweptMore(t.files, done, r);
    if Covered(t.files, t.blobs) {
      SlackCompose(t.files, t.blobs, t1.files, t1.blobs, t2.files, t2.blobs);
      CoveredCut(t1.files, t1.blobs, t2.files, t2.blobs);
    }
  }

  ghost function DueAmong(m: Files, rows: seq<Row>, k: nat, cutoff: Time): set<Id>
    requires k <= |rows|
  {
    set x | x in m && Due(m, x, cutoff) && exists i :: 0 <= i < k && rows[i].id == x
  }

  lemma DueSnoc(m: Files, rows: seq<Row>, k: nat, cutoff: Time)
    requires k < |rows| && rows[k].id in m && forall i, j | 0 <= i < j < |rows| :: rows[i].id != rows[j].id
    ensures rows[k].id !in DueAmong(m, rows, k, cutoff)
    ensures DueAmong(m, rows, k + 1, cutoff)
              == DueAmong(m, rows, k, cutoff) + if Due(m, rows[k].id, cutoff) then {rows[k].id} else {}
  {
  }

  lemma AllDue(m: Files, rows: seq<Row>, cutoff: Time)
    requires Lists(m, rows, m.Keys)
    ensures DueAmong(m, rows, |rows|, cutoff) == DueIds(m, cutoff)
  {
  }

  lemma NoTree(bin: Files, r: Id, x: Id)
    requires r !in bin
    ensures x !in Subtree(bin, r)
  {
    if x in Subtree(bin, r) { UnderIn(bin, r, x); }
  }
}
