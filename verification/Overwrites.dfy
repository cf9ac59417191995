/** Two ways to lose content while every call succeeds: linking a blob whose row was kept when
    its bytes went (internal/domain/upload.go:72-126 after 933-955), and submitting two
    directories that share a readable path (internal/domain/upload.go:783-800). */
module Overwrites {
  import opened Types
  import opened Forest
  import opened Refs
  import opened Stores
  import opened Tree
  import opened Content
  import opened Deletion
  import opened Ingest
  import opened DirTrees
  import opened Layouts
  import opened Submissions

  /** Delete the last file with some content, upload the content again by its hash: the counts
      are as exact as before and the new file names content that is not on disk. */
  method DeleteThenLink(uploader: Uploader, row: Row, s: Sha, ns: string, name: string) returns (y: Id)
    requires uploader.store.faults == iset{} && uploader.quota <= 0 && s != ""
    requires IdsBelow(uploader.store.files, uploader.store.nextId)
    requires Conserved(uploader.store.files, uploader.store.blobs)
    requires row.id in uploader.store.files && uploader.store.files[row.id] == row.file && row.file.sha == Some(s)
    requires uploader.store.blobs[s].refs == 1
    modifies uploader.store
    ensures y in Live(uploader.store.files) && uploader.store.files[y].sha == Some(s)
    ensures Conserved(uploader.store.files, uploader.store.blobs)
    ensures s in uploader.store.blobs && !Holds(uploader.store.blobs[s], s, uploader.store.disk, uploader.hash)
    ensures !Stored(uploader.store.blobs, uploader.store.disk, uploader.hash)
  {
    var deleter := new Deleter(uploader.store);
    var err := deleter.DeleteFileNow(row);
    SlackKeepsInvariants(old(uploader.store.files), old(uploader.store.blobs), uploader.store.files,
                         uploader.store.blobs);
    var found;
    ghost var mid;
    err, found, mid := uploader.CheckExists(s, ns, name);
    y := found.value.id;
  }

  /** A run from an empty store that gets there: upload, delete, upload by hash. */
  method UploadDeleteLink(store: Store, hash: Bytes -> Sha, show: Id -> string, path: Path, data: Bytes, ns: string,
                          name: string) returns (y: Id)
    requires store.faults == iset{} && store.files == map[] && store.blobs == map[] && store.disk == map[]
    requires hash(data) != ""
    modifies store
    ensures y in Live(store.files) && store.files[y].sha == Some(hash(data)) && hash(data) in store.blobs
    ensures !Holds(store.blobs[hash(data)], hash(data), store.disk, hash)
  {
    var uploader := new Uploader(store, 0, hash, show);
    var s := hash(data);
    var err, row;
    ghost var mid;
    err, row, mid := uploader.CommitStream(0, ns, name, "", path, data);
    CommitKeepsCounts(map[], map[], map[], store.blobs, store.disk, s, path, data, true, row.value.id, row.value.file);
    y := DeleteThenLink(uploader, row.value, s, ns, name);
  }

  /** The rows a submission changed still are what they were but for their place. */
  ghost predicate SameFiles(m: Files, m': Files) {
    forall x | x in m :: x in m' && m'[x] == m[x].(parent := m'[x].parent, path := m'[x].path)
  }

  /** A submission of one file delivers it, and leaves alone any other content that does not lie
      at its readable path. */
  method SubmitOne(submitter: Submitter, name: string, path: string, x: Id, s: Sha, ns: string,
                   ghost keep: set<Sha>, ghost hash: Bytes -> Sha)
    requires submitter.store.faults == iset{} && Sound(submitter.store.files, submitter.store.nextId)
    requires ItemOk(submitter.store.files, Item(path, x), ns) && submitter.store.files[x].sha == Some(s) && s in keep
    requires AllHold(keep, submitter.store.blobs, submitter.store.disk, hash) && name != ""
    requires forall t | t in keep && t != s ::
              submitter.store.blobs[t].path != ReadablePath(ns, name, path, submitter.safe)
    modifies submitter.store`files, submitter.store`blobs
    modifies submitter.store`disk, submitter.store`nextId, submitter.store`steps
    ensures Sound(submitter.store.files, submitter.store.nextId)
    ensures SameFiles(old(submitter.store.files), submitter.store.files)
    ensures AllHold(keep, submitter.store.blobs, submitter.store.disk, hash)
    ensures submitter.store.blobs.Keys == old(submitter.store.blobs).Keys
    ensures submitter.store.blobs[s].path == ReadablePath(ns, name, path, submitter.safe)
    ensures forall t | t in submitter.store.blobs && t != s ::
              submitter.store.blobs[t].path == old(submitter.store.blobs)[t].path
  {
    var items := [Item(path, x)];
    var store := submitter.store;
    OneClear(store.files, store.blobs, keep, items, path, x, s, ns, name, submitter.safe);
    ghost var m, b := store.files, store.blobs;
    var err, root;
    ghost var dirs, dirName;
    err, root, dirs, dirName := submitter.SubmitDir(name, items, ns, keep, hash);
    OneFiled(m, root, store.files, store.nextId, name, ns, dirs, items);
    OneDelivered(m, b, store.blobs, items, path, x, s, ns, name, submitter.safe);
  }

  lemma OneClear(m: Files, b: Blobs, keep: set<Sha>, items: seq<Item>, path: string, x: Id, s: Sha, ns: string,
                 name: string, safe: string -> string)
    requires items == [Item(path, x)] && x in m && m[x].sha == Some(s) && ItemOk(m, Item(path, x), ns) && s in keep
    requires forall t | t in keep && t in b && t != s :: b[t].path != ReadablePath(ns, name, path, safe)
    ensures PathsClear(m, b, keep, items, ns, name, safe) && DirTrees.Valid(m, items, ns)
  {
  }

  lemma OneFiled(m: Files, first: Id, m': Files, next: Id, name: string, ns: string, dirs: Dirs, items: seq<Item>)
    requires Built(m, first, m', next, name, ns, dirs, items, |items|, true)
    ensures SameFiles(m, m') && Sound(m', next)
  {
    forall x | x in m ensures x in m' && m'[x] == m[x].(parent := m'[x].parent, path := m'[x].path) {
      if i :| 0 <= i < |items| && items[i].id == x {
        assert ItemFiled(m, m', dirs, items[i], true);
      } else {
        assert !DirTrees.Listed(items, |items|, x);
      }
    }
  }

  /** With a single item, its content goes to its readable path and no other content moves. */
  lemma OneDelivered(m: Files, b: Blobs, b': Blobs, items: seq<Item>, path: string, x: Id, s: Sha, ns: string,
                     name: string, safe: string -> string)
    requires items == [Item(path, x)] && x in m && m[x].sha == Some(s)
    requires PathsFollow(m, b, b', items, 1, ns, name, safe) && Delivered(m, b', items, 1, ns, name, safe)
    ensures b'.Keys == b.Keys && s in b' && b'[s].path == ReadablePath(ns, name, path, safe)
    ensures forall t | t in b' && t != s :: b'[t].path == b[t].path
  {
    assert items[0].id == x;
    assert forall t | t in b && t != s :: !GoesTo(m, t, b'[t].path, items, 1, ns, name, safe);
  }

  /** Two submissions with the same namespace, name and path: the first file's content survives
      the second if and only if it is the same content. Both calls succeed, and the first row
      still names it. */
  method SubmitTwice(submitter: Submitter, name: string, path: string, x: Id, y: Id, ns: string,
                     ghost hash: Bytes -> Sha)
    returns (ghost sx: Sha, ghost sy: Sha)
    requires submitter.store.faults == iset{} && Sound(submitter.store.files, submitter.store.nextId) && name != ""
    requires ItemOk(submitter.store.files, Item(path, x), ns) && ItemOk(submitter.store.files, Item(path, y), ns)
    requires submitter.store.files[x].sha.Some? && submitter.store.files[y].sha.Some?
    requires AllHold({submitter.store.files[x].sha.value, submitter.store.files[y].sha.value}, submitter.store.blobs,
                     submitter.store.disk, hash)
    requires submitter.store.blobs[submitter.store.files[y].sha.value].path != ReadablePath(ns, name, path,
        submitter.safe)
    modifies submitter.store`files, submitter.store`blobs
    modifies submitter.store`disk, submitter.store`nextId, submitter.store`steps
    ensures Some(sx) == old(submitter.store.files)[x].sha && Some(sy) == old(submitter.store.files)[y].sha
    ensures x in Live(submitter.store.files) && submitter.store.files[x].sha == Some(sx)
    ensures sx in submitter.store.blobs && sy in submitter.store.blobs
    ensures Holds(submitter.store.blobs[sy], sy, submitter.store.disk, hash)
    ensures Holds(submitter.store.blobs[sx], sx, submitter.store.disk, hash) <==> sx == sy
  {
    var store := submitter.store;
    sx, sy := store.files[x].sha.value, store.files[y].sha.value;
    SubmitOne(submitter, name, path, x, store.files[x].sha.value, ns, {sx, sy}, hash);
    SubmitOne(submitter, name, path, y, store.files[y].sha.value, ns, {sy}, hash);
  }
}
