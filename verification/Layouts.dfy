/** Where content lies on disk and how SubmitDir moves it to a readable path
    (internal/domain/layout.go, internal/domain/upload.go:783-800). */
module Layouts {
  import opened Types
  import opened Refs
  import opened Stores
  import opened Content

  /** How far a move got. */
  datatype Progress = Untouched | DestLost | CopyLeft | PathStale | Moved

  function BlobsAfter(blobs: Blobs, s: Sha, dest: Path, p: Progress): Blobs {
    if p.Moved? && s in blobs then blobs[s := blobs[s].(path := dest)] else blobs
  }

  function DiskAfter(blobs: Blobs, disk: Disk, s: Sha, dest: Path, p: Progress): Disk {
    if s !in blobs || blobs[s].path !in disk || p.Untouched? then disk
    else if p.DestLost? then disk - {dest}
    else if p.CopyLeft? then disk[dest := disk[blobs[s].path]]
    else disk[dest := disk[blobs[s].path]] - {blobs[s].path}
  }

  /** The path belongs to other content that is still referenced. */
  ghost predicate Taken(blobs: Blobs, s: Sha, dest: Path) {
    exists t :: t in blobs && t != s && blobs[t].refs > 0 && blobs[t].path == dest
  }

  /** Content survives a move exactly when the destination belonged to nobody else and the
      new path was recorded once the old one was gone. */
  lemma MoveKeepsContent(blobs: Blobs, disk: Disk, s: Sha, dest: Path, p: Progress, hash: Bytes -> Sha)
    requires Stored(blobs, disk, hash)
    requires s in blobs && blobs[s].refs > 0 && blobs[s].path != dest
    ensures Stored(BlobsAfter(blobs, s, dest, p), DiskAfter(blobs, disk, s, dest, p), hash)
       <==> p.Untouched? || (!p.PathStale? && !Taken(blobs, s, dest))
  {
    var src := blobs[s].path;
    var b, d := BlobsAfter(blobs, s, dest, p), DiskAfter(blobs, disk, s, dest, p);
    assert Holds(blobs[s], s, disk, hash);
    if Taken(blobs, s, dest) && !p.Untouched? {
      var t :| t in blobs && t != s && blobs[t].refs > 0 && blobs[t].path == dest;
      assert t in b && b[t].refs > 0 && !Holds(b[t], t, d, hash);
    } else if p.PathStale? {
      assert s in b && b[s].refs > 0 && !Holds(b[s], s, d, hash);
    } else {
      forall t | t in b && b[t].refs > 0 ensures Holds(b[t], t, d, hash) {
        assert Holds(blobs[t], t, disk, hash);
      }
    }
  }

  /** All of these contents are on disk under their hashes. */
  ghost predicate AllHold(keep: set<Sha>, blobs: Blobs, disk: Disk, hash: Bytes -> Sha) {
    forall t | t in keep :: t in blobs && Holds(blobs[t], t, disk, hash)
  }

  /** Of any set of contents none is lost if no other one lies at the destination and the move
      was recorded. */
  lemma MoveKeepsHeld(keep: set<Sha>, blobs: Blobs, disk: Disk, s: Sha, dest: Path, p: Progress, hash: Bytes -> Sha)
    requires AllHold(keep, blobs, disk, hash) && s in keep && !p.PathStale?
    requires !p.Untouched? ==> blobs[s].path != dest
    requires forall t | t in keep && t != s :: blobs[t].path != dest
    ensures AllHold(keep, BlobsAfter(blobs, s, dest, p), DiskAfter(blobs, disk, s, dest, p), hash)
  {
  }

  /** Look the blob up, open, write, delete, record. A failure after the copy leaves it. */
  method Relocate(store: Store, s: Sha, dest: Path) returns (ghost p: Progress)
    modifies store`blobs, store`disk, store`steps
    ensures old(store.steps) < store.steps
    ensures store.blobs == BlobsAfter(old(store.blobs), s, dest, p)
    ensures store.disk == DiskAfter(old(store.blobs), old(store.disk), s, dest, p)
    ensures !p.Untouched? ==>
              s in old(store.blobs) && old(store.blobs)[s].path != dest && old(store.blobs)[s].path in old(store.disk)
    ensures store.Quiet(old(store.steps), store.steps) ==> p.Untouched? || p.Moved?
    ensures store.Quiet(old(store.steps), store.steps) && s in old(store.blobs)
              && old(store.blobs)[s].path in old(store.disk)
            ==> store.blobs[s].path == dest
  {
    p := Untouched;
    var err, blob := store.GetBlobBySha(s);
    if err.Some? || blob.None? || blob.value.path == dest { return; }
    var data;
    err, data := store.Open(blob.value.path);
    if err.Some? { return; }
    err := store.Write(dest, data);
    p := DestLost;
    if err.Some? { return; }
    err := store.Remove(blob.value.path);
    p := CopyLeft;
    if err.Some? { return; }
    err := store.UpdateBlobStorage(s, dest);
    p := if err.Some? then PathStale else Moved;
  }
}
