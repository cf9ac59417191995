/** Downloading one file, whole or in part (internal/domain/download.go:50-101,
    internal/transport/handler_util.go:17-44). */
module Reads {
  import opened Types
  import opened Forest
  import opened Refs
  import opened Stores
  import opened Content
  import opened Chunks

  /** A length of zero stands for the rest of the file. */
  datatype Range = Range(offset: int, length: int, requested: bool)

  predicate IsZero(r: Range) { !r.requested && r.offset == 0 && r.length == 0 }

  /** The range of a header `bytes=start-` or `bytes=start-end`, in int64. */
  function HeaderRange(start: int, end: Option<int>): Range {
    Range(start, if end.Some? then Wrap64(end.value - start + 1) else 0, true)
  }

  datatype FileReader = FileReader(row: Row, blob: Blob, data: Bytes, range: Range)

  /** The range that is read of an object of this size. */
  function Normalized(r: Range, size: nat): Range {
    if IsZero(r) then Range(0, size, false)
    else Range(r.offset, if r.length == 0 || r.length > size - r.offset then size - r.offset else r.length, r.requested)
  }

  predicate InRange(r: Range, size: nat) { IsZero(r) || 0 <= r.offset < size }

  /** Seek, then at most `length` bytes, or all that are left if it is not positive. */
  function ReadAt(data: Bytes, offset: nat, length: int): Bytes {
    var rest := if offset <= |data| then data[offset..] else [];
    if 0 < length < |rest| then rest[..length] else rest
  }

  /** The blob a row's content is in. */
  function BlobOf(f: File, blobs: Blobs): Option<Blob> {
    if f.sha.Some? && f.sha.value in blobs then Some(blobs[f.sha.value]) else None
  }

  class FileServer {
    const store: Store

    constructor (store: Store)
      ensures this.store == store
    {
      this.store := store;
    }

    /** The bytes asked for, from the offset asked for, to the end asked for or the end of the
        file. Directories, which name no content, are answered as corrupted. */
    method GetFile(id: Id, ns: string, r: Range) returns (err: Option<Error>, f: Option<FileReader>)
      modifies store`steps
      ensures err.None? <==> f.Some?
      ensures err.None? ==>
                && id in Live(store.files) && store.files[id].ns == ns && f.value.row == Row(id, store.files[id])
                && BlobOf(store.files[id], store.blobs) == Some(f.value.blob)
                && InRange(r, f.value.blob.size) && f.value.range == Normalized(r, f.value.blob.size)
                && f.value.blob.path in store.disk
                && f.value.range.offset >= 0
                && f.value.data == ReadAt(store.disk[f.value.blob.path], f.value.range.offset, f.value.range.length)
      ensures err.None? && |store.disk[f.value.blob.path]| == f.value.blob.size ==>
                Answers(r, store.disk[f.value.blob.path], f.value.range, f.value.data)
      ensures store.Quiet(old(store.steps), store.steps) ==>
                err == if id !in Live(store.files) then Some(NotFound)
                       else if store.files[id].ns != ns then Some(Forbidden)
                       else Refusal(BlobOf(store.files[id], store.blobs), r, store.disk)
    {
      f := None;
      var row;
      err, row := store.GetFile(id);
      if err.Some? { return; }
      if row.None? { return Some(NotFound), None; }
      if row.value.file.ns != ns { return Some(Forbidden), None; }
      var blob := None;
      if row.value.file.sha.Some? {
        err, blob := store.GetBlobBySha(row.value.file.sha.value);
        if err.Some? { return; }
      }
      if blob.None? { return Some(Corrupted), None; }
      var offset, length := 0, blob.value.size;
      if !IsZero(r) {
        offset, length := r.offset, r.length;
        if offset < 0 || offset >= blob.value.size { return Some(InvalidArgument), None; }
        if length == 0 || length > blob.value.size - offset { length := blob.value.size - offset; }
      }
      var data;
      err, data := store.Open(blob.value.path);
      if err.Some? { return; }
      f := Some(FileReader(row.value, blob.value, ReadAt(data, offset, length), Range(offset, length, r.requested)));
      if |data| == blob.value.size { RangeAnswered(r, data); }
    }
  }

  /** The position after the last byte asked for, in a file of this size. */
  function EndOf(r: Range, size: nat): int {
    if r.length == 0 || r.offset + r.length > size then size else r.offset + r.length
  }

  /** The answer to a request: it starts where the request does. A length that is not negative
      is met exactly, or cut at the end of the file; a negative one is announced as it is, and
      all that is left is sent. */
  ghost predicate Answers(r: Range, content: Bytes, announced: Range, data: Bytes) {
    && announced.offset == r.offset && announced.requested == r.requested && 0 <= r.offset <= |content|
    && if r.length < 0 then announced.length == r.length && data == content[r.offset..]
       else && r.offset <= EndOf(r, |content|) <= |content|
            && data == content[r.offset..EndOf(r, |content|)] && announced.length == |data|
  }

  lemma RangeAnswered(r: Range, content: Bytes)
    requires InRange(r, |content|)
    ensures var n := Normalized(r, |content|);
            n.offset >= 0 && Answers(r, content, n, ReadAt(content, n.offset, n.length))
  {
    var n := Normalized(r, |content|);
    if r.length >= 0 {
      assert content[n.offset..][..n.length] == content[n.offset..n.offset + n.length];
    }
  }

  /** A header that names its last byte is answered with the bytes from the first to the last it
      names, one that does not with all from the first. */
  lemma HeaderAnswered(start: int, end: Option<int>, content: Bytes, announced: Range, data: Bytes)
    requires 0 <= start < |content| && |content| <= MAX_INT64
    requires end.Some? ==> start <= end.value <= MAX_INT64 && (start > 0 || end.value < MAX_INT64)
    requires Answers(HeaderRange(start, end), content, announced, data)
    ensures var last := if end.Some? && end.value < |content| then end.value else |content| - 1;
            data == content[start..last + 1] && announced.offset == start && announced.length == last + 1 - start
  {
    HeaderOverflows(start, end);
  }

  /** Why the content of a readable row is not served. */
  function Refusal(blob: Option<Blob>, r: Range, disk: Disk): Option<Error> {
    match blob
    case None => Some(Corrupted)
    case Some(b) =>
      if !InRange(r, b.size) then Some(InvalidArgument) else if b.path in disk then None else Some(NotFound)
  }

  /** In a store whose counts cover the rows and whose referenced content is on disk, a file that
      names content is refused for its range only. */
  lemma Served(files: Files, blobs: Blobs, disk: Disk, hash: Bytes -> Sha, x: Id, r: Range)
    requires Covered(files, blobs) && Stored(blobs, disk, hash) && x in files && files[x].sha.Some?
    ensures var blob := BlobOf(files[x], blobs);
            && blob.Some? && Holds(blob.value, files[x].sha.value, disk, hash)
            && (Refusal(blob, r, disk).None? <==> InRange(r, blob.value.size))
            && (Refusal(blob, r, disk).Some? ==> Refusal(blob, r, disk) == Some(InvalidArgument))
  {
    NamedContentIsStored(files, blobs, disk, hash, x);
  }

  /** A whole download is the content; a part is the slice asked for, cut at the end. */
  lemma ServedBytes(blob: Blob, s: Sha, disk: Disk, hash: Bytes -> Sha, r: Range)
    requires Holds(blob, s, disk, hash) && InRange(r, blob.size) && r.length >= 0
    ensures var n := Normalized(r, blob.size); var data := ReadAt(disk[blob.path], n.offset, n.length);
            && 0 <= n.offset <= n.offset + n.length <= blob.size
            && data == disk[blob.path][n.offset..n.offset + n.length]
            && (n.length == blob.size ==> hash(data) == s)
  {
    var n, all := Normalized(r, blob.size), disk[blob.path];
    assert all[0..|all|] == all && all[n.offset..][..n.length] == all[n.offset..n.offset + n.length];
  }

  /** The length announced is the length sent exactly when the range's length is not negative. */
  lemma AnnouncedIffSent(blob: Blob, s: Sha, disk: Disk, hash: Bytes -> Sha, r: Range)
    requires Holds(blob, s, disk, hash) && InRange(r, blob.size)
    ensures var n := Normalized(r, blob.size);
            |ReadAt(disk[blob.path], n.offset, n.length)| == n.length <==> r.length >= 0
  {
    if r.length >= 0 { ServedBytes(blob, s, disk, hash, r); }
  }

  /** A header gives a negative length exactly when it asks for all int64 positions. */
  lemma HeaderOverflows(start: int, end: Option<int>)
    requires 0 <= start <= MAX_INT64 && (end.Some? ==> start <= end.value <= MAX_INT64)
    ensures HeaderRange(start, end).length < 0 <==> start == 0 && end == Some(MAX_INT64)
    ensures end.Some? && HeaderRange(start, end).length >= 0 ==> HeaderRange(start, end).length == end.value - start + 1
  {
  }

  /** Two ranges that meet give the bytes of their union. */
  lemma RangesMeet(data: Bytes, a: nat, b: nat, c: nat)
    requires a < b < c <= |data|
    ensures ReadAt(data, a, b - a) + ReadAt(data, b, c - b) == ReadAt(data, a, c - a)
  {
    assert data[a..][..c - a] == data[a..][..b - a] + data[b..][..c - b];
  }
}
