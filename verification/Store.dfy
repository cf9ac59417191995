/** The store behind the services: the SQLite tables, the quota reservations and the content
    storage, with the calls the services make on them as atomic steps. Every step consults the
    fault schedule: step `i` fails exactly when `i in faults`. */
module Stores {
  import opened Types
  import opened Forest
  import opened Refs
  import opened Sums

  datatype Reservation = Reservation(ns: string, bytes: nat)

  /** The rows the deletion and upload paths change together. */
  datatype Tables = Tables(files: Files, blobs: Blobs)

  /** `deleted_at` is written with whole seconds. */
  function Seconds(t: Time): Time { t / SECOND * SECOND }

  type Reservations = map<Id, Reservation>

  /** The sizes of a namespace's active rows, by row. */
  function Sizes(files: Files, ns: string): map<Id, nat> {
    map x | x in files && Active(files[x]) && files[x].ns == ns :: files[x].size
  }

  /** The bytes a namespace has reserved, by reservation. */
  function Holdings(reservations: Reservations, ns: string): map<Id, nat> {
    map r | r in reservations && reservations[r].ns == ns :: reservations[r].bytes
  }

  ghost function Used(files: Files, ns: string): nat { Total(Sizes(files, ns)) }

  ghost function Held(reservations: Reservations, ns: string): nat { Total(Holdings(reservations, ns)) }

  lemma UsedInsert(files: Files, x: Id, f: File, ns: string)
    requires x !in files
    ensures Used(files[x := f], ns) == Used(files, ns) + if Active(f) && f.ns == ns then f.size else 0
  {
    TotalDrop(Sizes(files[x := f], ns), x);
    assert Sizes(files[x := f], ns) - {x} == Sizes(files, ns);
  }

  /** The bytes in use have risen by so many in one namespace, and in no other. */
  ghost predicate UsedGrows(files: Files, files': Files, ns: string, bytes: nat) {
    forall n :: Used(files', n) == Used(files, n) + if n == ns then bytes else 0
  }

  ghost predicate SameUse(f: File, g: File) { g.size == f.size && g.ns == f.ns && g.deletedAt == f.deletedAt }

  lemma OnlyEmptyAdded(m0: Files, m: Files, n: string)
    requires forall x | x in m0 :: x in m && SameUse(m0[x], m[x])
    requires forall x | x in m && x !in m0 :: m[x].size == 0
    ensures Used(m, n) == Used(m0, n)
  {
    var before, after := Sizes(m0, n), Sizes(m, n);
    DropZeros(before);
    DropZeros(after);
    assert (map x | x in before && before[x] > 0 :: before[x]) == (map x | x in after && after[x] > 0 :: after[x]);
  }

  function CurrentOf(reservations: Reservations, id: Id): nat {
    if id in reservations then reservations[id].bytes else 0
  }

  /** The check inside the reservation transaction. The current reservation is looked up by
      its key alone. */
  ghost predicate Admits(files: Files, reservations: Reservations, ns: string, id: Id, bytes: nat, quota: int) {
    quota <= 0 || Used(files, ns) + Held(reservations, ns) - CurrentOf(reservations, id) + bytes <= quota
  }

  /** What is admitted fits beside what is used, unless the key holds a reservation elsewhere. */
  lemma AdmittedFits(files: Files, reservations: Reservations, ns: string, id: Id, bytes: nat, quota: int)
    requires Admits(files, reservations, ns, id, bytes, quota) && quota > 0
    requires id in reservations ==> reservations[id].ns == ns
    ensures Used(files, ns) + bytes <= quota
  {
    TotalDrop(Holdings(reservations, ns), id);
  }

  /** The rows of a query in some order, each once. */
  ghost predicate Lists(files: Files, rows: seq<Row>, ids: set<Id>) {
    && ids <= files.Keys
    && (forall i | 0 <= i < |rows| :: rows[i].id in ids && rows[i].file == files[rows[i].id])
    && (forall i, j | 0 <= i < j < |rows| :: rows[i].id != rows[j].id)
    && (forall x | x in ids :: exists i :: 0 <= i < |rows| && rows[i].id == x)
  }

  lemma ListsSnoc(files: Files, rows: seq<Row>, ids: set<Id>, x: Id)
    requires Lists(files, rows, ids) && x in files && x !in ids
    ensures Lists(files, rows + [Row(x, files[x])], ids + {x})
  {
    var longer := rows + [Row(x, files[x])];
    forall y | y in ids + {x} ensures exists i :: 0 <= i < |longer| && longer[i].id == y {
      if y == x {
        assert longer[|rows|].id == x;
      } else {
        var i :| 0 <= i < |rows| && rows[i].id == y;
        assert longer[i].id == y;
      }
    }
  }

  class Store {
    var files: Files
    var blobs: Blobs
    var disk: map<Path, Bytes>
    var reservations: Reservations
    var nextId: Id
    var steps: nat
    const faults: iset<nat>

    constructor (faults: iset<nat>)
      ensures files == map[] && blobs == map[] && disk == map[] && reservations == map[]
      ensures nextId == 0 && steps == 0 && this.faults == faults
    {
      files, blobs, disk, reservations, nextId, steps := map[], map[], map[], map[], 0, 0;
      this.faults := faults;
    }

    ghost function Now(): Tables
      reads this`files, this`blobs
    {
      Tables(files, blobs)
    }

    /** No step numbered from `from` up to `to` fails. */
    ghost predicate Quiet(from: nat, to: nat) {
      forall i: nat | from <= i < to :: i !in faults
    }

    /** Nor does any other than the one before `last`. */
    ghost predicate QuietBut(from: nat, last: nat, to: nat) {
      forall i: nat | from <= i < to && i + 1 != last :: i !in faults
    }

    /** A call that fails does so at the step before `mid`; one that refuses has met no failure
        up to there. */
    ghost predicate Decided(err: Option<Error>, from: nat, mid: nat) {
      && (err == Some(StepFailed) ==> from < mid && mid - 1 in faults)
      && (err.Some? && err != Some(StepFailed) ==> Quiet(from, mid))
    }

    lemma QuietSplit(from: nat, at: nat, to: nat)
      requires from <= at <= to
      ensures Quiet(from, to) <==> Quiet(from, at) && Quiet(at, to)
    {
    }

    method Step() returns (ok: bool)
      modifies this`steps
      ensures steps == old(steps) + 1 && ok == (old(steps) !in faults)
    {
      ok := steps !in faults;
      steps := steps + 1;
    }

    method NewID() returns (id: Id)
      modifies this`nextId
      ensures id == old(nextId) && nextId == id + 1
    {
      id := nextId;
      nextId := nextId + 1;
    }

    // ---------- files ----------

    /** `INSERT INTO files`: fails on a key that exists, and never writes deleted_at. */
    method PutFile(id: Id, f: File) returns (err: Option<Error>)
      modifies this`files, this`steps
      ensures steps == old(steps) + 1
      ensures err == if old(steps) in faults || id in old(files) then Some(StepFailed) else None
      ensures files == if err.None? then old(files)[id := f.(deletedAt := None)] else old(files)
    {
      var ok := Step();
      if !ok || id in files { return Some(StepFailed); }
      files := files[id := f.(deletedAt := None)];
      err := None;
    }

    /** Only rows outside the recycle bin are found. */
    method GetFile(id: Id) returns (err: Option<Error>, row: Option<Row>)
      modifies this`steps
      ensures steps == old(steps) + 1
      ensures err == if old(steps) in faults then Some(StepFailed) else None
      ensures row == if err.None? && id in files && Active(files[id]) then Some(Row(id, files[id])) else None
    {
      var ok := Step();
      if !ok { return Some(StepFailed), None; }
      err := None;
      row := if id in files && Active(files[id]) then Some(Row(id, files[id])) else None;
    }

    method Select(ids: set<Id>) returns (rows: seq<Row>)
      requires ids <= files.Keys
      ensures Lists(files, rows, ids) && |rows| == |ids|
    {
      rows := [];
      var todo := ids;
      while todo != {}
        invariant todo <= ids && Lists(files, rows, ids - todo) && |rows| == |ids - todo|
      {
        var x :| x in todo;
        ListsSnoc(files, rows, ids - todo, x);
        assert ids - (todo - {x}) == ids - todo + {x};
        rows := rows + [Row(x, files[x])];
        todo := todo - {x};
      }
      assert ids - todo == ids;
    }

    ghost function ChildIds(parent: Id): set<Id>
      reads this`files
    {
      set x | x in files && Active(files[x]) && files[x].parent == Some(parent)
    }

    method ListChildren(parent: Id) returns (err: Option<Error>, rows: seq<Row>)
      modifies this`steps
      ensures steps == old(steps) + 1
      ensures err == if old(steps) in faults then Some(StepFailed) else None
      ensures err.None? ==> Lists(files, rows, ChildIds(parent))
    {
      var ok := Step();
      if !ok { return Some(StepFailed), []; }
      err := None;
      rows := Select(set x | x in files && Active(files[x]) && files[x].parent == Some(parent));
    }

    method ListTrash(ns: string) returns (err: Option<Error>, rows: seq<Row>)
      modifies this`steps
      ensures steps == old(steps) + 1
      ensures err == if old(steps) in faults then Some(StepFailed) else None
      ensures err.None? ==> Lists(files, rows, Trashed(files, ns).Keys)
    {
      var ok := Step();
      if !ok { return Some(StepFailed), []; }
      err := None;
      rows := Select(set x | x in files && !Active(files[x]) && files[x].ns == ns);
      assert Trashed(files, ns).Keys == set x | x in files && !Active(files[x]) && files[x].ns == ns;
    }

    method ListAllFiles() returns (err: Option<Error>, rows: seq<Row>)
      modifies this`steps
      ensures steps == old(steps) + 1
      ensures err == if old(steps) in faults then Some(StepFailed) else None
      ensures err.None? ==> Lists(files, rows, files.Keys)
    {
      var ok := Step();
      if !ok { return Some(StepFailed), []; }
      err := None;
      rows := Select(files.Keys);
    }

    method MoveFileToTrash(id: Id, at: Time) returns (err: Option<Error>)
      modifies this`files, this`steps
      ensures steps == old(steps) + 1
      ensures err == if old(steps) in faults then Some(StepFailed)
                     else if id in old(files) && Active(old(files)[id]) then None
                     else Some(NotFound)
      ensures files == if err.None? then old(files)[id := old(files)[id].(deletedAt := Some(Seconds(at)))]
                       else old(files)
    {
      var ok := Step();
      if !ok { return Some(StepFailed); }
      if id !in files || !Active(files[id]) { return Some(NotFound); }
      files := files[id := files[id].(deletedAt := Some(Seconds(at)))];
      err := None;
    }

    method RestoreFile(id: Id) returns (err: Option<Error>)
      modifies this`files, this`steps
      ensures steps == old(steps) + 1
      ensures err == if old(steps) in faults then Some(StepFailed)
                     else if id in old(files) && !Active(old(files)[id]) then None
                     else Some(NotFound)
      ensures files == if err.None? then old(files)[id := old(files)[id].(deletedAt := None)] else old(files)
    {
      var ok := Step();
      if !ok { return Some(StepFailed); }
      if id !in files || Active(files[id]) { return Some(NotFound); }
      files := files[id := files[id].(deletedAt := None)];
      err := None;
    }

    /** `DELETE FROM files`: a missing row is not an error. */
    method DeleteFile(id: Id) returns (err: Option<Error>)
      modifies this`files, this`steps
      ensures steps == old(steps) + 1
      ensures err == if old(steps) in faults then Some(StepFailed) else None
      ensures files == if err.None? then old(files) - {id} else old(files)
    {
      var ok := Step();
      if !ok { return Some(StepFailed); }
      files := files - {id};
      err := None;
    }

    method UpdateFileParent(id: Id, parent: Option<Id>) returns (err: Option<Error>)
      modifies this`files, this`steps
      ensures steps == old(steps) + 1
      ensures err == if old(steps) in faults then Some(StepFailed) else None
      ensures files == if err.None? && id in old(files) then old(files)[id := old(files)[id].(parent := parent)]
                       else old(files)
    {
      var ok := Step();
      if !ok { return Some(StepFailed); }
      if id in files { files := files[id := files[id].(parent := parent)]; }
      err := None;
    }

    method ReparentFile(id: Id, parent: Option<Id>, path: string) returns (err: Option<Error>)
      modifies this`files, this`steps
      ensures steps == old(steps) + 1
      ensures err == if old(steps) in faults then Some(StepFailed) else None
      ensures files == if err.None? && id in old(files)
                       then old(files)[id := old(files)[id].(parent := parent, path := path)]
                       else old(files)
    {
      var ok := Step();
      if !ok { return Some(StepFailed); }
      if id in files { files := files[id := files[id].(parent := parent, path := path)]; }
      err := None;
    }

    method RenameFile(id: Id, name: string, path: string) returns (err: Option<Error>)
      modifies this`files, this`steps
      ensures steps == old(steps) + 1
      ensures err == if old(steps) in faults then Some(StepFailed) else None
      ensures files == if err.None? && id in old(files)
                       then old(files)[id := old(files)[id].(name := name, path := path)]
                       else old(files)
    {
      var ok := Step();
      if !ok { return Some(StepFailed); }
      if id in files { files := files[id := files[id].(name := name, path := path)]; }
      err := None;
    }

    // ---------- content_blobs ----------

    method GetBlobBySha(s: Sha) returns (err: Option<Error>, blob: Option<Blob>)
      modifies this`steps
      ensures steps == old(steps) + 1
      ensures err == if old(steps) in faults then Some(StepFailed) else None
      ensures blob == if err.None? && s in blobs then Some(blobs[s]) else None
    {
      var ok := Step();
      if !ok { return Some(StepFailed), None; }
      err, blob := None, if s in blobs then Some(blobs[s]) else None;
    }

    /** Insert-or-increment in one transaction; the path that counts is the row's. */
    method AcquireBlob(s: Sha, path: Path, size: nat)
      returns (err: Option<Error>, canonical: Path, inserted: bool)
      modifies this`blobs, this`steps
      ensures steps == old(steps) + 1
      ensures err == if old(steps) in faults then Some(StepFailed) else None
      ensures blobs == if err.Some? then old(blobs)
                       else if s in old(blobs) then Incr(old(blobs), s)
                       else old(blobs)[s := Blob(path, size, 1)]
      ensures err.None? ==> inserted == (s !in old(blobs)) && canonical == blobs[s].path
    {
      var ok := Step();
      if !ok { return Some(StepFailed), "", false; }
      inserted := s !in blobs;
      blobs := if inserted then blobs[s := Blob(path, size, 1)] else Incr(blobs, s);
      err, canonical := None, blobs[s].path;
    }

    /** Incrementing a missing row is an error. */
    method IncrBlobRef(s: Sha) returns (err: Option<Error>)
      modifies this`blobs, this`steps
      ensures steps == old(steps) + 1
      ensures err == if old(steps) in faults || s !in old(blobs) then Some(StepFailed) else None
      ensures blobs == if err.None? then Incr(old(blobs), s) else old(blobs)
    {
      var ok := Step();
      if !ok || s !in blobs { return Some(StepFailed); }
      blobs := Incr(blobs, s);
      err := None;
    }

    /** An UPDATE followed by a SELECT outside any transaction. When the SELECT fails the
        count has already been lowered although the caller sees an error. */
    method DecrBlobRef(s: Sha) returns (err: Option<Error>, count: nat)
      modifies this`blobs, this`steps
      ensures old(steps) < steps <= old(steps) + 2
      ensures blobs == if old(steps) in faults then old(blobs) else Decr(old(blobs), s)
      ensures err == if old(steps) in faults then Some(StepFailed)
                     else if s in old(blobs) && old(steps) + 1 in faults then Some(RefCountUnread(s))
                     else None
      ensures err.None? ==> count == if s in blobs then blobs[s].refs else 0
      ensures err.Some? ==> steps - 1 in faults
      ensures err.None? ==> Quiet(old(steps), steps)
    {
      var ok := Step();
      if !ok { return Some(StepFailed), 0; }
      blobs := Decr(blobs, s);
      if s !in blobs { return None, 0; }
      ok := Step();
      if !ok { return Some(RefCountUnread(s)), 0; }
      err, count := None, blobs[s].refs;
    }

    method UpdateBlobStorage(s: Sha, path: Path) returns (err: Option<Error>)
      modifies this`blobs, this`steps
      ensures steps == old(steps) + 1
      ensures err == if old(steps) in faults then Some(StepFailed) else None
      ensures blobs == if err.None? && s in old(blobs) then old(blobs)[s := old(blobs)[s].(path := path)]
                       else old(blobs)
    {
      var ok := Step();
      if !ok { return Some(StepFailed); }
      if s in blobs { blobs := blobs[s := blobs[s].(path := path)]; }
      err := None;
    }

    /** Every blob row, in some order. */
    method ListAllBlobs() returns (err: Option<Error>, shas: seq<Sha>)
      modifies this`steps
      ensures steps == old(steps) + 1
      ensures err == if old(steps) in faults then Some(StepFailed) else None
      ensures err.None? ==> (forall s :: s in shas <==> s in blobs)
                            && forall i, j | 0 <= i < j < |shas| :: shas[i] != shas[j]
    {
      var ok := Step();
      if !ok { return Some(StepFailed), []; }
      err, shas := None, [];
      var todo := blobs.Keys;
      while todo != {}
        invariant todo <= blobs.Keys && forall s :: s in shas <==> s in blobs && s !in todo
        invariant forall i, j | 0 <= i < j < |shas| :: shas[i] != shas[j]
      {
        var s :| s in todo;
        shas := shas + [s];
        todo := todo - {s};
      }
    }

    /** The rows naming a hash, trashed ones included. */
    method ListFilesByBlob(s: Sha) returns (err: Option<Error>, rows: seq<Row>)
      modifies this`steps
      ensures steps == old(steps) + 1
      ensures err == if old(steps) in faults then Some(StepFailed) else None
      ensures err.None? ==> Lists(files, rows, Namers(files, s)) && |rows| == Count(files, s)
    {
      var ok := Step();
      if !ok { return Some(StepFailed), []; }
      err := None;
      rows := Select(set x | x in files && files[x].sha == Some(s));
    }

    // ---------- quota ----------

    /** One transaction: sum, compare, upsert. */
    method ReserveNamespaceBytes(ns: string, id: Id, bytes: int, quota: int) returns (err: Option<Error>)
      modifies this`reservations, this`steps
      ensures steps == old(steps) + if ns == "" || bytes < 0 then 0 else 1
      ensures err == if ns == "" || bytes < 0 then Some(InvalidArgument)
                     else if old(steps) in faults then Some(StepFailed)
                     else if Admits(files, old(reservations), ns, id, bytes, quota) then None
                     else Some(QuotaExceeded)
      ensures reservations == if err.None? then old(reservations)[id := Reservation(ns, bytes)]
                              else old(reservations)
    {
      if ns == "" || bytes < 0 { return Some(InvalidArgument); }
      var ok := Step();
      if !ok { return Some(StepFailed); }
      var used := Sum(Sizes(files, ns));
      var reserved := Sum(Holdings(reservations, ns));
      var current := CurrentOf(reservations, id);
      if quota > 0 && used + reserved - current + bytes > quota { return Some(QuotaExceeded); }
      reservations := reservations[id := Reservation(ns, bytes)];
      err := None;
    }

    method ReleaseNamespaceReservation(id: Id) returns (err: Option<Error>)
      modifies this`reservations, this`steps
      ensures steps == old(steps) + 1
      ensures err == if old(steps) in faults then Some(StepFailed) else None
      ensures reservations == if err.None? then old(reservations) - {id} else old(reservations)
    {
      var ok := Step();
      if !ok { return Some(StepFailed); }
      reservations := reservations - {id};
      err := None;
    }

    // ---------- storage ----------

    /** Writing replaces the file; a failed write leaves nothing behind. */
    method Write(path: Path, data: Bytes) returns (err: Option<Error>)
      modifies this`disk, this`steps
      ensures steps == old(steps) + 1
      ensures err == if old(steps) in faults then Some(StepFailed) else None
      ensures disk == if err.None? then old(disk)[path := data] else old(disk) - {path}
    {
      var ok := Step();
      if !ok {
        disk := disk - {path};
        return Some(StepFailed);
      }
      disk := disk[path := data];
      err := None;
    }

    method Open(path: Path) returns (err: Option<Error>, data: Bytes)
      modifies this`steps
      ensures steps == old(steps) + 1
      ensures err == if old(steps) in faults then Some(StepFailed) else if path in disk then None else Some(NotFound)
      ensures err.None? ==> data == disk[path]
    {
      var ok := Step();
      if !ok { return Some(StepFailed), []; }
      if path !in disk { return Some(NotFound), []; }
      err, data := None, disk[path];
    }

    /** Deleting a missing object succeeds. */
    method Remove(path: Path) returns (err: Option<Error>)
      modifies this`disk, this`steps
      ensures steps == old(steps) + 1
      ensures err == if old(steps) in faults then Some(StepFailed) else None
      ensures disk == if err.None? then old(disk) - {path} else old(disk)
    {
      var ok := Step();
      if !ok { return Some(StepFailed); }
      disk := disk - {path};
      err := None;
    }
  }
}
