/** How content enters the store: the instant upload (internal/domain/upload.go:72-126),
    the commit of a finished upload (internal/domain/finalize.go:101-186), the reference
    they take (internal/domain/refcount.go), and the scanner that checks the counts
    (internal/lifecycle/reaper.go:299-320). */
module Ingest {
  import opened Types
  import opened Forest
  import opened Refs
  import opened Stores
  import opened Tree
  import opened Content
  import Paths

  /** A reference taken by IncrWithRollback, and its undo closure. */
  class RefHold {
    const store: Store
    const sha: Sha
    var done: bool

    constructor (store: Store, sha: Sha)
      ensures this.store == store && this.sha == sha && !done
    {
      this.store, this.sha, done := store, sha, false;
    }

    /** The first call gives the reference back, later calls do nothing. */
    method Rollback() returns (err: Option<Error>)
      modifies this`done, store`blobs, store`steps
      ensures done
      ensures old(done) ==> err.None? && store.blobs == old(store.blobs) && store.steps == old(store.steps)
      ensures !old(done) ==> old(store.steps) < store.steps
      ensures !old(done) ==>
                store.blobs == if old(store.steps) in store.faults then old(store.blobs)
                               else Decr(old(store.blobs), sha)
      ensures !old(done) && store.Quiet(old(store.steps), store.steps) ==> err.None?
    {
      if done { return None; }
      done := true;
      var count;
      err, count := store.DecrBlobRef(sha);
    }
  }

  /** Taking a reference and giving it back is the identity. */
  lemma IncrDecr(blobs: Blobs, s: Sha)
    requires s in blobs
    ensures Decr(Incr(blobs, s), s) == blobs
  {
  }

  /** The blobs table AcquireBlob leaves. */
  function Acquired(blobs: Blobs, s: Sha, path: Path, size: nat): Blobs {
    if s in blobs then Incr(blobs, s) else blobs[s := Blob(path, size, 1)]
  }

  /** A row for new content, at the top of its namespace. */
  function ContentRow(s: Sha, name: string, path: string, size: nat, ns: string): File {
    File(Some(s), name, path, size, ns, false, None, None)
  }

  /** No count got too low: the outcome of an upload, whatever failed. */
  lemma AcquireKeepsCover(files: Files, blobs: Blobs, s: Sha, path: Path, size: nat, x: Id, f: File)
    requires Covered(files, blobs) && x !in files && f.sha == Some(s)
    ensures Covered(files, Acquired(blobs, s, path, size))
    ensures Covered(files[x := f], Acquired(blobs, s, path, size))
    ensures Covered(files, Decr(Acquired(blobs, s, path, size), s))
    ensures Conserved(files, blobs) ==> Conserved(files[x := f], Acquired(blobs, s, path, size))
  {
    if s !in blobs { assert Namers(files, s) == {}; }
    forall t ensures Count(files[x := f], t) == Count(files, t) + if t == s then 1 else 0 {
      CountInsert(files, x, f, t);
    }
  }

  /** The blob row is there but its bytes are not: a deleted object's row kept at zero. */
  ghost predicate Lost(blobs: Blobs, disk: Disk, hash: Bytes -> Sha, s: Sha) {
    s in blobs && !Holds(blobs[s], s, disk, hash)
  }

  /** A file for so many bytes of content, at the top of its namespace. */
  ghost predicate FileOf(f: File, s: Sha, path: string, size: nat, ns: string) {
    && f.sha == Some(s) && f.size == size && f.ns == ns && f.path == path
    && !f.isDir && f.parent.None? && f.deletedAt.None?
  }

  /** The file of an upload is called by the last name of its path. */
  ghost predicate UploadedAs(f: File, s: Sha, path: string, size: nat, ns: string) {
    FileOf(f, s, path, size, ns) && Paths.LastName(path, f.name)
  }

  /** A new row uses its bytes. */
  lemma InsertedUses(m: Files, x: Id, f: File)
    requires x !in m && Active(f)
    ensures UsedGrows(m, m[x := f], f.ns, f.size)
  {
    forall n ensures Used(m[x := f], n) == Used(m, n) + if n == f.ns then f.size else 0 { UsedInsert(m, x, f, n); }
  }

  class Uploader {
    const store: Store
    const quota: int
    const hash: Bytes -> Sha
    /** How an identifier is written. */
    const show: Id -> string

    constructor (store: Store, quota: int, hash: Bytes -> Sha, show: Id -> string)
      ensures this.store == store && this.quota == quota && this.hash == hash && this.show == show
    {
      this.store, this.quota, this.hash, this.show := store, quota, hash, show;
    }

    /** No limit, or nothing to store: no reservation is made. */
    method ReserveNamespace(id: Id, ns: string, bytes: int) returns (err: Option<Error>, reserved: bool)
      modifies store`reservations, store`steps
      ensures old(store.steps) <= store.steps
      ensures reserved == (quota > 0 && bytes > 0)
      ensures !reserved ==> err.None? && store.reservations == old(store.reservations)
      ensures reserved && err.None? ==> Admits(store.files, old(store.reservations), ns, id, bytes, quota)
                                        && store.reservations == old(store.reservations)[id := Reservation(ns, bytes)]
      ensures reserved && err.None? ==> ns != ""
      ensures err.Some? ==> store.reservations == old(store.reservations)
      ensures store.Decided(err, old(store.steps), store.steps)
      ensures store.Quiet(old(store.steps), store.steps) ==>
                err == if !reserved then None else if ns == "" then Some(InvalidArgument)
                       else if Admits(store.files, old(store.reservations), ns, id, bytes, quota) then None
                       else Some(QuotaExceeded)
    {
      if quota <= 0 || bytes <= 0 { return None, false; }
      err := store.ReserveNamespaceBytes(ns, id, bytes, quota);
      reserved := true;
    }

    /** The metadata half of CheckExists: take the reference, insert the row, give the
        reference back if that fails. */
    method LinkExisting(s: Sha, id: Id, f: File) returns (err: Option<Error>, ghost mid: nat)
      requires id !in store.files && f.sha == Some(s) && f.deletedAt.None?
      modifies store`files, store`blobs, store`steps
      ensures old(store.steps) < mid <= store.steps
      ensures s in old(store.blobs) ==> store.Decided(err, old(store.steps), mid)
      ensures err.None? <==> s in old(store.blobs) && store.Quiet(old(store.steps), mid)
      ensures err.None? ==> store.files == old(store.files)[id := f] && store.blobs == Incr(old(store.blobs), s)
      ensures err.Some? ==> store.files == old(store.files)
      ensures err.Some? ==> store.blobs == old(store.blobs)
                            || (!store.Quiet(mid, store.steps) && store.blobs == Incr(old(store.blobs), s))
    {
      err := store.IncrBlobRef(s);
      mid := store.steps;
      if err.Some? { return; }
      var hold := new RefHold(store, s);
      IncrDecr(old(store.blobs), s);
      err := store.PutFile(id, f);
      mid := store.steps;
      if err.Some? {
        var _ := hold.Rollback();
      }
    }

    /** upload.go:72-126. `mid` is the step after which only compensation runs. */
    method CheckExists(s: Sha, ns: string, name: string)
      returns (err: Option<Error>, row: Option<Row>, ghost mid: nat)
      requires IdsBelow(store.files, store.nextId) && Covered(store.files, store.blobs)
      modifies store`files, store`blobs, store`reservations, store`nextId, store`steps
      ensures old(store.steps) <= mid <= store.steps
      ensures store.Decided(err, old(store.steps), mid)
      ensures store.nextId >= old(store.nextId) + if row.Some? then 1 else 0
      ensures row.Some? ==> err.None? && s in old(store.blobs)
      ensures row.Some? ==> row == Some(Row(old(store.nextId), ContentRow(s, name, name, old(store.blobs)[s].size, ns)))
      ensures row.Some? ==> FileOf(row.value.file, s, name, old(store.blobs)[s].size, ns) && row.value.file.name == name
      ensures row.Some? ==> UsedGrows(old(store.files), store.files, ns, old(store.blobs)[s].size)
      ensures row.Some? && old(store.nextId) !in old(store.reservations) ==>
                Fits(store.files, ns, old(store.blobs)[s].size)
      ensures row.Some? ==> store.files == old(store.files)[row.value.id := row.value.file]
                            && store.blobs == Incr(old(store.blobs), s)
      ensures err.None? && s in old(store.blobs) ==> row.Some?
      ensures row.None? ==> store.files == old(store.files)
      ensures row.None? ==> store.blobs == old(store.blobs)
                            || (!store.Quiet(mid, store.steps) && s in old(store.blobs)
                                && store.blobs == Incr(old(store.blobs), s))
      ensures Covered(store.files, store.blobs)
      ensures row.Some? && Conserved(old(store.files), old(store.blobs)) ==> Conserved(store.files, store.blobs)
      ensures store.Quiet(old(store.steps), store.steps) ==>
                err == if s == "" then Some(InvalidArgument)
                       else if s !in old(store.blobs) then None
                       else GuardAnswer(old(store.files), old(store.reservations), ns, old(store.nextId),
                                        old(store.blobs)[s].size)
      ensures store.Quiet(old(store.steps), store.steps) && s != "" ==>
                (row.Some? <==> s in old(store.blobs) && err.None?)
      ensures Released(row.Some? && quota > 0 && row.value.file.size > 0, old(store.nextId), old(store.reservations),
                       store.reservations, store.Quiet(old(store.steps), store.steps))
    {
      row, mid := None, store.steps;
      if s == "" { return Some(InvalidArgument), None, mid; }
      var blob;
      err, blob := store.GetBlobBySha(s);
      mid := store.steps;
      if err.Some? || blob.None? { return; }
      ghost var files0, blobs0 := store.files, store.blobs;
      err, row, mid := LinkReserved(s, ns, name, blob.value.size);
      AcquireKeepsCover(files0, blobs0, s, "", 0, old(store.nextId), ContentRow(s, name, name, blob.value.size, ns));
      if row.Some? {
        Grown(files0, old(store.reservations), ns, row.value.id, row.value.id, row.value.file, blob.value.size);
      }
    }

    /** A quota in force has not been exceeded by bringing in so many bytes. */
    ghost predicate Fits(files: Files, ns: string, bytes: nat) { quota > 0 && bytes > 0 ==> Used(files, ns) <= quota }

    /** A row let in by the guard uses its bytes and stays within the quota. */
    lemma Grown(files: Files, reservations: Reservations, ns: string, key: Id, x: Id, f: File, bytes: nat)
      requires x !in files && Active(f) && f.ns == ns && f.size == bytes && RoomFor(files, reservations, ns, key, bytes)
      ensures UsedGrows(files, files[x := f], ns, bytes)
      ensures (key in reservations ==> reservations[key].ns == ns) ==> Fits(files[x := f], ns, bytes)
    {
      InsertedUses(files, x, f);
      if quota > 0 && bytes > 0 && (key in reservations ==> reservations[key].ns == ns) {
        AdmittedFits(files, reservations, ns, key, bytes, quota);
      }
    }

    /** The branch taken on a hit: reserve, link, release. */
    method LinkReserved(s: Sha, ns: string, name: string, size: nat)
      returns (err: Option<Error>, row: Option<Row>, ghost mid: nat)
      requires IdsBelow(store.files, store.nextId) && s in store.blobs
      modifies store`files, store`blobs, store`reservations, store`nextId, store`steps
      ensures old(store.steps) <= mid <= store.steps && store.nextId == old(store.nextId) + 1
      ensures store.Decided(err, old(store.steps), mid)
      ensures row == if err.None? then Some(Row(old(store.nextId), ContentRow(s, name, name, size, ns))) else None
      ensures store.files == if err.None? then old(store.files)[row.value.id := row.value.file] else old(store.files)
      ensures err.None? ==> store.blobs == Incr(old(store.blobs), s)
      ensures err.None? ==> RoomFor(old(store.files), old(store.reservations), ns, old(store.nextId), size)
      ensures err.Some? ==> store.blobs == old(store.blobs)
                            || (!store.Quiet(mid, store.steps) && store.blobs == Incr(old(store.blobs), s))
      ensures store.Quiet(old(store.steps), store.steps) ==>
                err == GuardAnswer(old(store.files), old(store.reservations), ns, old(store.nextId), size)
      ensures Released(err.None? && quota > 0 && size > 0, old(store.nextId), old(store.reservations),
                       store.reservations, store.Quiet(old(store.steps), store.steps))
    {
      row := None;
      var id := store.NewID();
      var reserved;
      err, reserved := ReserveNamespace(id, ns, size);
      mid := store.steps;
      if err.None? {
        var f := ContentRow(s, name, name, size, ns);
        err, mid := LinkExisting(s, id, f);
        if err.None? { row := Some(Row(id, f)); }
        if reserved { var _ := store.ReleaseNamespaceReservation(id); }
      }
    }

    /** finalize.go:101-186, with the quota guard of Finalize: write, compare, guard,
        acquire, drop the duplicate copy, insert the row. A failure is decided by the step
        before `mid`; the others are only compensation. */
    method CommitStream(session: Id, ns: string, fileName: string, declared: Sha, path: Path, data: Bytes)
      returns (err: Option<Error>, row: Option<Row>, ghost mid: nat)
      requires IdsBelow(store.files, store.nextId)
      requires Unused(path, store.blobs, store.disk)
      modifies store`files, store`blobs, store`disk, store`reservations, store`nextId, store`steps
      ensures old(store.steps) < mid <= store.steps
      ensures store.Decided(err, old(store.steps), mid)
      ensures row.Some? <==> err.None?
      ensures store.nextId >= old(store.nextId) + if err.None? then 1 else 0
      ensures err.None? ==> declared == "" || hash(data) == declared
      ensures err.None? ==> row.value == Row(old(store.nextId), UploadRow(old(store.nextId), ns, fileName, data))
      ensures err.None? ==>
                UploadedAs(row.value.file, hash(data), if fileName == "" then show(row.value.id) else fileName,
                                       |data|, ns)
      ensures err.None? ==> UsedGrows(old(store.files), store.files, ns, |data|)
      ensures err.None? && (session in old(store.reservations) ==> old(store.reservations)[session].ns == ns) ==>
                Fits(store.files, ns, |data|)
      ensures err.None? ==> RoomFor(old(store.files), old(store.reservations), ns, session, |data|)
      ensures err.None? ==> store.files == old(store.files)[row.value.id := row.value.file]
      ensures err.None? ==> store.blobs == Acquired(old(store.blobs), hash(data), path, |data|)
      ensures err.None? ==> Committed(old(store.blobs), old(store.disk), store.disk, hash(data), path, data,
                                      store.Quiet(old(store.steps), store.steps))
      ensures err.Some? ==> store.files == old(store.files)
      ensures err.Some? ==>
                AfterFailure(old(store.blobs), old(store.disk), store.blobs, store.disk, hash(data), path, data,
                                         store.QuietBut(old(store.steps), mid, store.steps))
      ensures store.Quiet(old(store.steps), store.steps) ==>
                err == if declared != "" && hash(data) != declared then Some(ContentChecksum)
                       else GuardAnswer(old(store.files), old(store.reservations), ns, session, |data|)
      ensures OthersHeld(session, old(store.reservations), store.reservations)
      ensures quota <= 0 ==> store.reservations == old(store.reservations)
    {
      row := None;
      ghost var disk0, step0 := store.disk, store.steps;
      err := store.Write(path, data);
      mid := store.steps;
      assert store.disk - {path} == disk0 && disk0 - {path} == disk0;
      if err.None? && declared != "" && hash(data) != declared {
        err := Some(ContentChecksum);
        var _ := store.Remove(path);
      } else if err.None? {
        ghost var step1 := store.steps;
        err, row, mid := GuardAndCommit(session, ns, (id: Id) => UploadRow(id, ns, fileName, data), path, data);
        store.QuietSplit(step0, step1, store.steps);
        if row.Some? { UploadUses(old(store.files), old(store.reservations), session, ns, row.value, fileName, data); }
      }
    }

    lemma UploadUses(files: Files, reservations: Reservations, session: Id, ns: string, row: Row, fileName: string,
                     data: Bytes)
      requires row.id !in files && row.file == UploadRow(row.id, ns, fileName, data)
      requires RoomFor(files, reservations, ns, session, |data|)
      ensures UploadedAs(row.file, hash(data), if fileName == "" then show(row.id) else fileName, |data|, ns)
      ensures UsedGrows(files, files[row.id := row.file], ns, |data|)
      ensures (session in reservations ==> reservations[session].ns == ns) ==>
                Fits(files[row.id := row.file], ns, |data|)
    {
      Paths.BaseIsLastName(if fileName == "" then show(row.id) else fileName);
      Grown(files, reservations, ns, session, row.id, row.file, |data|);
    }

    /** The logical file row of a finished upload. */
    function UploadRow(id: Id, ns: string, fileName: string, data: Bytes): File {
      var name := if fileName == "" then show(id) else fileName;
      ContentRow(hash(data), Paths.Base(name), name, |data|, ns)
    }

    /** What the quota guard says to so many bytes. */
    ghost function GuardAnswer(files: Files, reservations: Reservations, ns: string, id: Id, bytes: nat): Option<Error>
    {
      if RoomFor(files, reservations, ns, id, bytes) then None
      else if ns == "" then Some(InvalidArgument)
      else Some(QuotaExceeded)
    }

    /** The quota guard lets so many bytes in. */
    ghost predicate RoomFor(files: Files, reservations: Reservations, ns: string, id: Id, bytes: nat) {
      quota > 0 && bytes > 0 ==> ns != "" && Admits(files, reservations, ns, id, bytes, quota)
    }

    /** From the quota guard on; `rowOf` is the row to insert under a new identifier. */
    method GuardAndCommit(session: Id, ns: string, rowOf: Id -> File, path: Path, data: Bytes)
      returns (err: Option<Error>, row: Option<Row>, ghost mid: nat)
      requires IdsBelow(store.files, store.nextId)
      requires forall id :: rowOf(id).sha == Some(hash(data)) && rowOf(id).deletedAt.None?
      requires path in store.disk && store.disk[path] == data
      modifies store`files, store`blobs, store`disk, store`reservations, store`nextId, store`steps
      ensures old(store.steps) <= mid <= store.steps
      ensures store.Decided(err, old(store.steps), mid)
      ensures store.nextId >= old(store.nextId) + if err.None? then 1 else 0
      ensures row == if err.None? then Some(Row(old(store.nextId), rowOf(old(store.nextId)))) else None
      ensures Outcome(row, Tables(old(store.files), old(store.blobs)), old(store.disk) - {path}, store.Now(),
                      store.disk, hash(data), path, data,
                      store.Quiet(old(store.steps), store.steps), store.QuietBut(old(store.steps), mid, store.steps))
      ensures store.Quiet(old(store.steps), store.steps) ==>
                err == GuardAnswer(old(store.files), old(store.reservations), ns, session, |data|)
      ensures err.None? ==> RoomFor(old(store.files), old(store.reservations), ns, session, |data|)
      ensures OthersHeld(session, old(store.reservations), store.reservations)
      ensures quota <= 0 ==> store.reservations == old(store.reservations)
    {
      row := None;
      ghost var t, disk0, step0 := store.Now(), store.disk - {path}, store.steps;
      var reserved;
      err, reserved := ReserveNamespace(session, ns, |data|);
      mid := store.steps;
      if err.Some? {
        var _ := store.Remove(path);
      } else {
        var id := store.NewID();
        ghost var step1 := store.steps;
        err, row, mid := AcquireAndPut(hash(data), id, rowOf(id), path, data);
        store.QuietSplit(step0, step1, store.steps);
        OutcomeWider(row, t, disk0, store.Now(), store.disk, hash(data), path, data,
                     store.Quiet(step1, store.steps), store.QuietBut(step1, mid, store.steps),
                     store.Quiet(step0, store.steps), store.QuietBut(step0, mid, store.steps));
      }
    }

    /** Steps 4 and 5 of the commit. */
    method AcquireAndPut(s: Sha, id: Id, f: File, path: Path, data: Bytes)
      returns (err: Option<Error>, row: Option<Row>, ghost mid: nat)
      requires id !in store.files && f.deletedAt.None? && f.sha == Some(s)
      requires path in store.disk && store.disk[path] == data
      modifies store`files, store`blobs, store`disk, store`steps
      ensures old(store.steps) < mid <= store.steps
      ensures err.Some? ==> err == Some(StepFailed)
      ensures store.Decided(err, old(store.steps), mid)
      ensures row == if err.None? then Some(Row(id, f)) else None
      ensures Outcome(row, Tables(old(store.files), old(store.blobs)), old(store.disk) - {path}, store.Now(),
                      store.disk, s, path, data,
                      store.Quiet(old(store.steps), store.steps), store.QuietBut(old(store.steps), mid, store.steps))
      ensures store.Quiet(old(store.steps), store.steps) ==> err.None?
    {
      row := None;
      ghost var blobs0, disk0 := store.blobs, store.disk;
      assert (disk0 - {path})[path := data] == disk0;
      var canonical, inserted;
      err, canonical, inserted := store.AcquireBlob(s, path, |data|);
      mid := store.steps;
      if err.Some? {
        var _ := store.Remove(path);
      } else {
        if !inserted {
          IncrDecr(blobs0, s);
          var _ := store.Remove(path);
        }
        err := store.PutFile(id, f);
        mid := store.steps;
        if err.Some? {
          var _, _ := store.DecrBlobRef(s);
        } else {
          row := Some(Row(id, f));
        }
      }
    }
  }

  /** An operation that reserves under one key leaves the other reservations alone. */
  ghost predicate OthersHeld(id: Id, r: Reservations, r': Reservations) { r' - {id} == r - {id} }

  /** And, if it came to reserve (`reserved`) and nothing failed, it leaves none of its own. */
  ghost predicate Released(reserved: bool, id: Id, r: Reservations, r': Reservations, quiet: bool) {
    OthersHeld(id, r, r') && (quiet ==> r' == if reserved then r - {id} else r)
  }

  /** Nothing lies at the path and no blob points there. */
  ghost predicate Unused(path: Path, blobs: Blobs, disk: Disk) {
    path !in disk && forall s | s in blobs :: blobs[s].path != path
  }

  /** What a commit leaves of the tables and the disk, `d0` being the disk without its copy. */
  ghost predicate Outcome(row: Option<Row>, t: Tables, d0: Disk, t': Tables, d': Disk, s: Sha, path: Path, data: Bytes,
                          quiet: bool, clean: bool) {
    match row
    case Some(r) =>
      && t'.files == t.files[r.id := r.file] && t'.blobs == Acquired(t.blobs, s, path, |data|)
      && Committed(t.blobs, d0, d', s, path, data, quiet)
    case None => t'.files == t.files && AfterFailure(t.blobs, d0, t'.blobs, d', s, path, data, clean)
  }

  lemma OutcomeWider(row: Option<Row>, t: Tables, d0: Disk, t': Tables, d': Disk, s: Sha, path: Path, data: Bytes,
                     quiet: bool, clean: bool, quiet': bool, clean': bool)
    requires Outcome(row, t, d0, t', d', s, path, data, quiet, clean) && (quiet' ==> quiet) && (clean' ==> clean)
    ensures Outcome(row, t, d0, t', d', s, path, data, quiet', clean')
  {
  }

  /** After a failed commit that was cleaned up every count is as exact as before. */
  lemma CleanFailureConserves(files: Files, b0: Blobs, d0: Disk, b1: Blobs, d1: Disk, s: Sha, path: Path, data: Bytes)
    requires Conserved(files, b0) && AfterFailure(b0, d0, b1, d1, s, path, data, true)
    ensures Conserved(files, b1)
  {
  }

  /** Whatever a commit leaves, no count is too low; after a success, and after a failure that
      was cleaned up, every count is as exact as before. */
  lemma CommitKeepsCounts(files: Files, b0: Blobs, d0: Disk, b1: Blobs, d1: Disk, s: Sha, path: Path, data: Bytes,
                          quiet: bool, x: Id, f: File)
    requires Covered(files, b0) && x !in files && f.sha == Some(s)
    ensures AfterFailure(b0, d0, b1, d1, s, path, data, quiet) ==> Covered(files, b1)
    ensures AfterFailure(b0, d0, b1, d1, s, path, data, quiet) && quiet && Conserved(files, b0) ==> Conserved(files, b1)
    ensures b1 == Acquired(b0, s, path, |data|) ==> Covered(files[x := f], b1)
    ensures b1 == Acquired(b0, s, path, |data|) && Conserved(files, b0) ==> Conserved(files[x := f], b1)
  {
    AcquireKeepsCover(files, b0, s, path, |data|, x, f);
    if quiet && Conserved(files, b0) && AfterFailure(b0, d0, b1, d1, s, path, data, quiet) {
      CleanFailureConserves(files, b0, d0, b1, d1, s, path, data);
    }
  }

  /** A commit of content whose row is kept at zero although its bytes are gone adds a file
      nobody can read. In every other case content stays present. */
  lemma CommitStoresContent(b0: Blobs, d0: Disk, d1: Disk, path: Path, data: Bytes, quiet: bool, hash: Bytes -> Sha)
    requires Stored(b0, d0, hash) && Committed(b0, d0, d1, hash(data), path, data, quiet)
    requires path !in d0 && forall t | t in b0 :: b0[t].path != path
    ensures Stored(Acquired(b0, hash(data), path, |data|), d1, hash) <==> !Lost(b0, d0, hash, hash(data))
  {
    var s, b1 := hash(data), Acquired(b0, hash(data), path, |data|);
    if s in b0 {
      IncrStored(b0, d0, hash, s);
      SameAtOtherPaths(b1, d0, d1, hash, path);
    } else {
      assert Holds(b1[s], s, d1, hash);
      forall t | t in b1 && b1[t].refs > 0 ensures Holds(b1[t], t, d1, hash) {
        assert t != s ==> Holds(b0[t], t, d0, hash);
      }
    }
  }

  lemma SameAtOtherPaths(b: Blobs, d0: Disk, d1: Disk, hash: Bytes -> Sha, path: Path)
    requires d1 - {path} == d0 - {path} && forall t | t in b :: b[t].path != path
    ensures Stored(b, d1, hash) <==> Stored(b, d0, hash)
  {
    forall t | t in b ensures Holds(b[t], t, d1, hash) <==> Holds(b[t], t, d0, hash) {
      var p := b[t].path;
      assert p in d0 <==> p in d1 - {path};
      assert p in d0 ==> (d0 - {path})[p] == (d1 - {path})[p];
    }
  }

  /** The disk after a successful commit: the copy stays where the new row points, or, for
      content already known, is dropped again. */
  ghost predicate Committed(b0: Blobs, d0: Disk, d1: Disk, s: Sha, path: Path, data: Bytes, quiet: bool) {
    if s !in b0 then d1 == d0[path := data]
    else d1 == d0 || (!quiet && d1 == d0[path := data])
  }

  /** Tables and disk after a failed commit: nothing is left, except a fresh blob row kept at
      zero with its copy and, where the cleanup failed too, a copy or a count. */
  ghost predicate AfterFailure(b0: Blobs, d0: Disk, b1: Blobs, d1: Disk, s: Sha, path: Path, data: Bytes, quiet: bool) {
    || (b1 == b0 && (d1 == d0 || (!quiet && d1 == d0[path := data])))
    || (s !in b0 && d1 == d0[path := data] && b1 == b0[s := Blob(path, |data|, 0)])
    || (!quiet && s !in b0 && d1 == d0[path := data] && b1 == b0[s := Blob(path, |data|, 1)])
    || (!quiet && s in b0 && b1 == Incr(b0, s) && (d1 == d0 || d1 == d0[path := data]))
  }

  /** Raising a count keeps content present exactly when the content is there to be named. */
  lemma IncrStored(blobs: Blobs, disk: Disk, hash: Bytes -> Sha, s: Sha)
    requires s in blobs && Stored(blobs, disk, hash)
    ensures Stored(Incr(blobs, s), disk, hash) <==> !Lost(blobs, disk, hash, s)
  {
    var b := Incr(blobs, s);
    if Lost(blobs, disk, hash, s) {
      assert b[s].refs > 0 && !Holds(b[s], s, disk, hash);
    } else {
      forall t | t in b && b[t].refs > 0 ensures Holds(b[t], t, disk, hash) {
        assert t != s ==> Holds(blobs[t], t, disk, hash);
      }
    }
  }

  class Scanner {
    const store: Store

    constructor (store: Store)
      ensures this.store == store
    {
      this.store := store;
    }

    /** The number of blobs whose count differs from their rows. With no failed query, zero
        means every count is exact. */
    method ScanRefCount() returns (drifted: nat)
      modifies store`steps
      ensures store.Quiet(old(store.steps), store.steps) ==> drifted == |Drifted(store.files, store.blobs)|
      ensures drifted <= |Drifted(store.files, store.blobs)|
    {
      drifted := 0;
      var err, shas := store.ListAllBlobs();
      if err.Some? { return; }
      ghost var found: set<Sha> := {};
      for i := 0 to |shas|
        invariant found == set s | s in shas[..i] && s in found
        invariant found <= Drifted(store.files, store.blobs) && |found| == drifted
        invariant old(store.steps) < store.steps
        invariant store.Quiet(old(store.steps), store.steps) ==>
                    forall s | s in shas[..i] && s in Drifted(store.files, store.blobs) :: s in found
      {
        assert shas[i] !in shas[..i];
        var failed, rows := store.ListFilesByBlob(shas[i]);
        if failed.None? && |rows| != store.blobs[shas[i]].refs {
          drifted := drifted + 1;
          found := found + {shas[i]};
        }
      }
      assert shas[..|shas|] == shas;
      DriftBound(found, Drifted(store.files, store.blobs));
    }
  }

  lemma DriftBound(found: set<Sha>, all: set<Sha>)
    requires found <= all
    ensures |found| <= |all| && (all <= found ==> |found| == |all|)
  {
    assert all == found + (all - found);
  }

  ghost function Drifted(files: Files, blobs: Blobs): set<Sha> {
    set s | s in blobs && Count(files, s) != blobs[s].refs
  }

  /** The scanner's verdict and the conservation invariant say the same of a table in which
      every named hash has a blob. */
  lemma NoDriftMeansConserved(files: Files, blobs: Blobs)
    requires Known(files, blobs)
    ensures |Drifted(files, blobs)| == 0 <==> Conserved(files, blobs)
  {
    if Conserved(files, blobs) {
      assert Drifted(files, blobs) == {};
    } else {
      var s :| s in blobs && Count(files, s) != blobs[s].refs;
      assert s in Drifted(files, blobs);
    }
  }
}
