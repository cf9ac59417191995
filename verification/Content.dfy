/** Physical content: every blob that is still referenced has its bytes on disk. SHA-256
    is a parameter; nothing is assumed about it. */
module Content {
  import opened Types
  import opened Forest
  import opened Refs

  type Disk = map<Path, Bytes>

  /** The bytes a blob row promises are at its path. */
  ghost predicate Holds(blob: Blob, s: Sha, disk: Disk, hash: Bytes -> Sha) {
    blob.path in disk && hash(disk[blob.path]) == s && |disk[blob.path]| == blob.size
  }

  /** Every blob with a positive count is stored. */
  ghost predicate Stored(blobs: Blobs, disk: Disk, hash: Bytes -> Sha) {
    forall s | s in blobs && blobs[s].refs > 0 :: Holds(blobs[s], s, disk, hash)
  }

  /** No two blobs share a path. */
  ghost predicate PathsApart(blobs: Blobs) {
    forall s, t | s in blobs && t in blobs && s != t :: blobs[s].path != blobs[t].path
  }

  /** Counts only fell and the disk lost only paths of blobs nobody references. */
  ghost predicate Freed(b0: Blobs, d0: Disk, b1: Blobs, d1: Disk) {
    && b1.Keys == b0.Keys
    && (forall s | s in b0 :: b1[s].path == b0[s].path && b1[s].size == b0[s].size && b1[s].refs <= b0[s].refs)
    && d1.Keys <= d0.Keys && (forall p | p in d1 :: d1[p] == d0[p])
    && (forall p | p in d0 && p !in d1 :: exists s :: s in b1 && b1[s].refs == 0 && b1[s].path == p)
  }

  lemma FreedKeepsStored(b0: Blobs, d0: Disk, b1: Blobs, d1: Disk, hash: Bytes -> Sha)
    requires Freed(b0, d0, b1, d1) && Stored(b0, d0, hash) && PathsApart(b0)
    ensures Stored(b1, d1, hash) && PathsApart(b1)
  {
  }

  /** What the invariants are for: whatever a file row names, trashed or not, can be read
      back, and hashes to that name. */
  lemma NamedContentIsStored(files: Files, blobs: Blobs, disk: Disk, hash: Bytes -> Sha, x: Id)
    requires Covered(files, blobs) && Stored(blobs, disk, hash)
    requires x in files && files[x].sha.Some?
    ensures files[x].sha.value in blobs && Holds(blobs[files[x].sha.value], files[x].sha.value, disk, hash)
  {
    var s := files[x].sha.value;
    assert x in Namers(files, s);
    assert Count(files, s) > 0;
  }
}
