/** Finalizing an upload (internal/domain/upload.go:534-624): claim, check, merge, commit. */
module Finalize {
  import opened Types
  import opened Stores
  import opened Tree
  import opened Content
  import opened Sorting
  import opened Chunks
  import opened Uploads
  import opened Ingest

  /** The parts a list names, in its order. */
  function InOrder(parts: Parts, cs: seq<ChunkInfo>): Bytes {
    if cs == [] then []
    else InOrder(parts, cs[..|cs| - 1]) + if cs[|cs| - 1].index in parts then parts[cs[|cs| - 1].index] else []
  }

  lemma {:induction false} InPlaceOrder(parts: Parts, cs: seq<ChunkInfo>, chunkSize: int)
    requires InPlace(cs, chunkSize)
    ensures InOrder(parts, cs) == Merged(parts, |cs|)
    decreases |cs|
  {
    if cs != [] {
      assert InPlace(cs[..|cs| - 1], chunkSize);
      InPlaceOrder(parts, cs[..|cs| - 1], chunkSize);
    }
  }

  function FlatPath(ns: string, id: string, name: string): Path { ns + "/" + id + "-" + name }

  /** Sessions whose identifiers are written at equal length never share a path. */
  lemma FlatPathsApart(ns: string, a: string, name: string, b: string, name': string)
    requires |a| == |b| && FlatPath(ns, a, name) == FlatPath(ns, b, name')
    ensures a == b && name == name'
  {
    IdentifierIn(ns, a, name);
    IdentifierIn(ns, b, name');
  }

  lemma IdentifierIn(ns: string, a: string, name: string)
    ensures var p := FlatPath(ns, a, name);
            |p| == |ns| + |a| + |name| + 2 && p[|ns| + 1..|ns| + 1 + |a|] == a && p[|ns| + |a| + 2..] == name
  {
  }

  /** No object lies where the session would write. */
  ghost predicate PathsFree(disk: Disk, blobs: map<Sha, Blob>, ns: string, id: string) {
    forall name: string ::
      FlatPath(ns, id, name) !in disk && forall s | s in blobs :: blobs[s].path != FlatPath(ns, id, name)
  }

  class Finalizer {
    const keys: SessionKeys
    const uploader: Uploader
    const safe: string -> string
    const decompress: Bytes -> Option<Bytes>
    const emptySha: Sha

    constructor (keys: SessionKeys, uploader: Uploader, safe: string -> string, decompress: Bytes -> Option<Bytes>,
                 emptySha: Sha)
      ensures this.keys == keys && this.uploader == uploader && this.safe == safe
      ensures this.decompress == decompress && this.emptySha == emptySha
    {
      this.keys, this.uploader, this.safe, this.decompress, this.emptySha := keys, uploader, safe, decompress, emptySha;
    }

    /** finalize.go:25-64: the parts in index order, whatever order the list is in. */
    method MergeChunks(cs: seq<ChunkInfo>, ghost chunkSize: int) returns (err: Option<Error>, data: Bytes)
      modifies keys`steps
      ensures old(keys.steps) <= keys.steps
      ensures err.None? && (cs == [] || Contiguous(cs, chunkSize)) ==> data == Merged(keys.parts, |cs|)
      ensures err.None? ==> forall c | c in cs :: c.index in keys.parts
      ensures keys.Quiet(old(keys.steps), keys.steps) && (forall c | c in cs :: c.index in keys.parts) ==> err.None?
    {
      var sorted := Sort(cs, ByIndex);
      SameMembers(cs, sorted);
      ContiguousSorted(cs, sorted, chunkSize);
      err, data := ReadParts(sorted);
      if InPlace(sorted, chunkSize) { InPlaceOrder(keys.parts, sorted, chunkSize); }
    }

    method ReadParts(sorted: seq<ChunkInfo>) returns (err: Option<Error>, data: Bytes)
      modifies keys`steps
      ensures old(keys.steps) <= keys.steps
      ensures err.None? ==> data == InOrder(keys.parts, sorted) && forall c | c in sorted :: c.index in keys.parts
      ensures keys.Quiet(old(keys.steps), keys.steps) && (forall c | c in sorted :: c.index in keys.parts) ==> err.None?
    {
      err, data := None, [];
      var k := 0;
      while k < |sorted| && err.None?
        invariant k <= |sorted| && old(keys.steps) <= keys.steps
        invariant keys.Quiet(old(keys.steps), keys.steps) && (forall c | c in sorted :: c.index in keys.parts) ==>
                  err.None?
        invariant err.None? ==> data == InOrder(keys.parts, sorted[..k])
        invariant err.None? ==> forall c | c in sorted[..k] :: c.index in keys.parts
      {
        var part;
        err, part := keys.OpenPart(sorted[k].index);
        data := data + part;
        assert sorted[..k + 1][..k] == sorted[..k];
        k := k + 1;
      }
      if err.None? { assert sorted[..k] == sorted; }
    }

    /** Takes away the parts a list names, as far as that works, and no others. */
    method CleanUp(cs: seq<ChunkInfo>)
      modifies keys`parts, keys`steps
      ensures old(keys.steps) <= keys.steps
      ensures Removed(old(keys.parts), keys.parts, cs, keys.Quiet(old(keys.steps), keys.steps))
    {
      for i := 0 to |cs|
        invariant old(keys.steps) <= keys.steps
        invariant Removed(old(keys.parts), keys.parts, cs[..i], keys.Quiet(old(keys.steps), keys.steps))
      {
        ghost var parts, step1 := keys.parts, keys.steps;
        var _ := keys.DeletePart(cs[i].index);
        RemovedSnoc(old(keys.parts), parts, keys.parts, cs[..i], cs[i], keys.Quiet(old(keys.steps), step1),
                    keys.Quiet(old(keys.steps), keys.steps));
        assert cs[..i + 1] == cs[..i] + [cs[i]];
      }
      assert cs[..|cs|] == cs;
    }

    lemma RemovedSnoc(a: Parts, b: Parts, c: Parts, cs: seq<ChunkInfo>, last: ChunkInfo, quiet: bool, quiet': bool)
      requires Removed(a, b, cs, quiet) && (quiet' ==> quiet)
      requires c == b - {last.index} || (c == b && !quiet')
      ensures Removed(a, c, cs + [last], quiet')
    {
    }

    /** Lists the chunks, checks the list and merges it. An accepted list is to be cleaned up,
        also when a part cannot be read. */
    method Assemble(s: UploadSession) returns (err: Option<Error>, cs: seq<ChunkInfo>, data: Bytes)
      requires s.length <= MAX_INT64 && s.chunkSize <= MAX_INT64
      modifies keys`steps
      ensures old(keys.steps) <= keys.steps
      ensures cs == [] || (ListsChunks(keys.chunks, cs) && Whole(keys.chunks, s.length, s.chunkSize, !s.compressed))
      ensures keys.Quiet(old(keys.steps), keys.steps) && Whole(keys.chunks, s.length, s.chunkSize, !s.compressed) ==>
                ListsChunks(keys.chunks, cs)
      ensures err.None? ==> Whole(keys.chunks, s.length, s.chunkSize, !s.compressed)
      ensures err.None? ==> |cs| == |keys.chunks| && data == Merged(keys.parts, |cs|)
      ensures keys.Quiet(old(keys.steps), keys.steps) ==>
                (err.None? <==> && Whole(keys.chunks, s.length, s.chunkSize, !s.compressed)
                                && PartsThere(keys.chunks, keys.parts))
    {
      data := [];
      cs := [];
      var listed;
      err, listed := keys.ListChunks();
      if err.Some? { return; }
      ListedTotal(keys.chunks, listed);
      WholeListed(keys.chunks, listed, s.length, s.chunkSize, !s.compressed);
      PartsListed(keys.chunks, listed, keys.parts);
      err := Check(listed, s);
      if err.Some? { return; }
      cs := listed;
      err, data := MergeChunks(cs, s.chunkSize);
    }

    /** The check, on a slice of its own. */
    method Check(cs: seq<ChunkInfo>, s: UploadSession) returns (err: Option<Error>)
      requires s.length <= MAX_INT64 && s.chunkSize <= MAX_INT64
      ensures err.None? <==> Accepts(cs, s.length, s.chunkSize, !s.compressed)
    {
      var chunks := new ChunkInfo[|cs|](i requires 0 <= i < |cs| => cs[i]);
      assert chunks[..] == cs;
      err := ValidateUploadedChunks(chunks, s.length, s.chunkSize, !s.compressed);
    }

    /** The declared hash; nothing declared for nothing uploaded stands for the empty content's. */
    function Declared(s: UploadSession, chunks: ChunkMap): Sha {
      if |chunks| == 0 && s.sha == "" then emptySha else s.sha
    }

    /** What the parts come to, if they decompress. */
    function ContentOf(s: UploadSession, merged: Bytes): Option<Bytes> {
      if s.compressed then decompress(merged) else Some(merged)
    }

    /** The session's upload is whole, its parts are there and give content with the declared
        hash, for which there is room. */
    ghost predicate Finishable(s: UploadSession, chunks: ChunkMap, parts: Parts, files: map<Id, File>,
                               reservations: Reservations) {
      && Whole(chunks, s.length, s.chunkSize, !s.compressed) && PartsThere(chunks, parts)
      && var content := ContentOf(s, Merged(parts, |chunks|));
         content.Some? && Accepted(s, Declared(s, chunks), content.value, files, reservations)
    }

    ghost predicate Accepted(s: UploadSession, declared: Sha, content: Bytes, files: map<Id, File>,
                             reservations: Reservations) {
      (declared == "" || uploader.hash(content) == declared)
      && uploader.RoomFor(files, reservations, s.ns, s.id, |content|)
    }

    /** Where the session's content is written. */
    function PathOf(s: UploadSession, next: Id): Path {
      FlatPath(s.ns, uploader.show(s.id), safe(if s.fileName == "" then uploader.show(next) else s.fileName))
    }

    /** The new row: a file of the content under the session's name, numbered freshly. */
    ghost predicate FinalRow(row: Row, next: Id, next': Id, s: UploadSession, data: Bytes) {
      && next <= row.id < next'
      && UploadedAs(row.file, uploader.hash(data), if s.fileName == "" then uploader.show(row.id) else s.fileName,
                    |data|, s.ns)
    }

    /** The store before and after a commit of `data` to the session's path: what a commit or a
        failed one leaves, at a path that was nobody's, and of the reservations only the
        session's own has changed. */
    ghost predicate CommitEnds(s: UploadSession, a: Shot, b: Shot, row: Option<Row>, data: Bytes, path: Path,
                               quiet: bool, clean: bool) {
      && Outcome(row, a.t, a.disk, b.t, b.disk, uploader.hash(data), path, data, quiet, clean)
      && path == PathOf(s, a.next) && Unused(path, a.t.blobs, a.disk)
      && a.next <= b.next && (row.Some? ==> FinalRow(row.value, a.next, b.next, s, data))
      && (row.Some? ==> uploader.RoomFor(a.t.files, a.reservations, s.ns, s.id, |data|))
      && OthersHeld(s.id, a.reservations, b.reservations)
      && (uploader.quota <= 0 ==> b.reservations == a.reservations)
    }

    /** Unless nothing was tried in the store, `mid` follows the step that decided. */
    ghost predicate Tried(err: Option<Error>, a: Shot, b: Shot, from: nat, mid: nat) {
      if mid == from then b.t == a.t && b.disk == a.disk else uploader.store.Decided(err, from, mid)
    }

    lemma NothingCommitted(s: UploadSession, a: Shot, quiet: bool, clean: bool)
      requires PathsFree(a.disk, a.t.blobs, s.ns, uploader.show(s.id))
      ensures CommitEnds(s, a, a, None, [], PathOf(s, a.next), quiet, clean)
    {
    }

    lemma CommitEndsWider(s: UploadSession, a: Shot, b: Shot, c: Shot, row: Option<Row>, data: Bytes, path: Path,
                          quiet: bool, clean: bool, quiet': bool, clean': bool)
      requires CommitEnds(s, a, b, row, data, path, quiet, clean) && (quiet' ==> quiet) && (clean' ==> clean)
      requires c.t == b.t && c.disk == b.disk && c.next == b.next
      requires c.reservations == b.reservations || c.reservations == b.reservations - {s.id}
      requires uploader.quota <= 0 ==> c.reservations == b.reservations
      ensures CommitEnds(s, a, c, row, data, path, quiet', clean')
    {
      OutcomeWider(row, a.t, a.disk, b.t, b.disk, uploader.hash(data), path, data, quiet, clean, quiet', clean');
    }

    /** A finalized row uses the bytes of its content in the session's namespace, and, unless the
        session's reservation is under another one, no more than the quota are then in use. */
    lemma CommittedUses(s: UploadSession, a: Shot, b: Shot, row: Row, data: Bytes, path: Path, quiet: bool, clean: bool)
      requires CommitEnds(s, a, b, Some(row), data, path, quiet, clean) && IdsBelow(a.t.files, a.next)
      ensures UsedGrows(a.t.files, b.t.files, s.ns, |data|)
      ensures (s.id in a.reservations ==> a.reservations[s.id].ns == s.ns) ==> uploader.Fits(b.t.files, s.ns, |data|)
    {
      uploader.Grown(a.t.files, a.reservations, s.ns, s.id, row.id, row.file, |data|);
    }

    /** What has been finalized can be read back: the new row's content is on disk, where new
        content is the very bytes that were committed. */
    lemma CommittedIsRead(s: UploadSession, a: Shot, b: Shot, row: Row, data: Bytes, path: Path, quiet: bool,
                          clean: bool)
      requires CommitEnds(s, a, b, Some(row), data, path, quiet, clean)
      requires Content.Stored(a.t.blobs, a.disk, uploader.hash)
      requires !Lost(a.t.blobs, a.disk, uploader.hash, uploader.hash(data))
      ensures var h := uploader.hash(data);
              && row.file.sha == Some(h) && row.id in b.t.files && b.t.files[row.id] == row.file
              && h in b.t.blobs && Holds(b.t.blobs[h], h, b.disk, uploader.hash)
              && (h !in a.t.blobs ==> b.t.blobs[h].path == path && path in b.disk && b.disk[path] == data)
    {
      CommitStoresContent(a.t.blobs, a.disk, b.disk, path, data, quiet, uploader.hash);
    }

    ghost function Now(): Shot
      reads uploader.store
    {
      Shot(uploader.store.Now(), uploader.store.disk, uploader.store.nextId, uploader.store.reservations)
    }

    ghost predicate Quiet(from: nat)
      reads uploader.store`steps
    {
      uploader.store.Quiet(from, uploader.store.steps)
    }

    ghost predicate QuietBut(from: nat, last: nat)
      reads uploader.store`steps
    {
      uploader.store.QuietBut(from, last, uploader.store.steps)
    }

    /** upload.go:534-624. A success commits the merge of the recorded parts, decompressed where
        the session says so, under the declared hash; a failure leaves what a failed commit of
        `data` leaves, and if the session was not `claimed` nothing at all. A claimed session is
        gone or spent. When nothing fails, it is a success exactly for an active session that can
        be finished, and the session's reservation is gone. Only cleaning up fails after the step
        before `mid`. */
    method Finalize()
      returns (err: Option<Error>, row: Option<Row>, ghost data: Bytes, ghost path: Path, ghost mid: nat,
               ghost claimed: bool)
      requires IdsBelow(uploader.store.files, uploader.store.nextId)
      requires keys.session.Some? ==>
                 && keys.session.value.length <= MAX_INT64 && keys.session.value.chunkSize <= MAX_INT64
                 && PathsFree(uploader.store.disk, uploader.store.blobs, keys.session.value.ns,
                              uploader.show(keys.session.value.id))
      modifies keys`session, keys`chunks, keys`offset, keys`parts, keys`steps
      modifies uploader.store`files, uploader.store`blobs, uploader.store`disk
      modifies uploader.store`reservations, uploader.store`nextId, uploader.store`steps
      ensures (row.Some? <==> err.None?) && (err.None? ==> claimed)
      ensures !claimed ==> Now() == old(Now()) && keys.session == old(keys.session)
                           && keys.chunks == old(keys.chunks) && keys.parts == old(keys.parts)
      ensures claimed ==>
                && old(keys.session).Some? && old(keys.session).value.status.SessionActive?
                && !(keys.session.Some? && keys.session.value.status.SessionActive?)
                && CommitEnds(old(keys.session).value, old(Now()), Now(), row, data, path,
                              Quiet(old(uploader.store.steps)), QuietBut(old(uploader.store.steps), mid))
      ensures claimed ==> Tried(err, old(Now()), Now(), old(uploader.store.steps), mid)
      ensures err.None? ==>
                UsedGrows(old(uploader.store.files), uploader.store.files, old(keys.session).value.ns, |data|)
      ensures err.None? && SameNamespace(old(keys.session).value, old(uploader.store.reservations)) ==>
                uploader.Fits(uploader.store.files, old(keys.session).value.ns, |data|)
      ensures err.None? ==>
                Finished(old(keys.session).value, old(keys.chunks), old(keys.parts), uploader.hash, decompress,
                                     emptySha, data)
      ensures keys.Quiet(old(keys.steps), keys.steps) && Quiet(old(uploader.store.steps)) ==>
                (err.None? <==> && old(keys.session).Some? && old(keys.session).value.status.SessionActive?
                                && Finishable(old(keys.session).value, old(keys.chunks), old(keys.parts),
                                              old(uploader.store.files), old(uploader.store.reservations)))
      ensures claimed ==> var s := old(keys.session).value;
                          Spent(Whole(old(keys.chunks), s.length, s.chunkSize, !s.compressed), old(keys.chunks),
                                old(keys.parts), keys.parts, keys.Quiet(old(keys.steps), keys.steps))
      ensures claimed ==> Released(uploader.quota > 0, old(keys.session).value.id, old(uploader.store.reservations),
                                   uploader.store.reservations, Quiet(old(uploader.store.steps)))
    {
      row, data, path, mid, claimed := None, [], "", uploader.store.steps, false;
      var s;
      err, s := keys.ClaimSessionFinalizing();
      if err.None? {
        var _ := keys.Step();
        claimed := true;
        err, row, data, path, mid := FinishAndRelease(s.value.(status := SessionActive));
        if row.Some? {
          CommittedUses(old(keys.session).value, old(Now()), Now(), row.value, data, path,
                        Quiet(old(uploader.store.steps)), QuietBut(old(uploader.store.steps), mid));
        }
      }
    }

    /** The session's reservation, if it has one, is under its namespace. */
    ghost predicate SameNamespace(s: UploadSession, reservations: Reservations) {
      s.id in reservations ==> reservations[s.id].ns == s.ns
    }

    /** With the deferred release. The status is not looked at any more: `s` is the session as it
        was before the claim. */
    method FinishAndRelease(s: UploadSession)
      returns (err: Option<Error>, row: Option<Row>, ghost data: Bytes, ghost path: Path, ghost mid: nat)
      requires IdsBelow(uploader.store.files, uploader.store.nextId) && s.length <= MAX_INT64
      requires s.chunkSize <= MAX_INT64
      requires PathsFree(uploader.store.disk, uploader.store.blobs, s.ns, uploader.show(s.id))
      requires keys.session == Some(s.(status := SessionFinalizing))
      modifies keys`session, keys`chunks, keys`offset, keys`parts, keys`steps
      modifies uploader.store`files, uploader.store`blobs, uploader.store`disk
      modifies uploader.store`reservations, uploader.store`nextId, uploader.store`steps
      ensures row.Some? <==> err.None?
      ensures keys.session == Some(s.(status := SessionFinalizing)) || (keys.session.None? && err.None?)
      ensures err.None? ==> Finished(s, old(keys.chunks), old(keys.parts), uploader.hash, decompress, emptySha, data)
      ensures Spent(Whole(old(keys.chunks), s.length, s.chunkSize, !s.compressed), old(keys.chunks), old(keys.parts),
                    keys.parts, keys.Quiet(old(keys.steps), keys.steps))
      ensures Tried(err, old(Now()), Now(), old(uploader.store.steps), mid)
      ensures CommitEnds(s, old(Now()), Now(), row, data, path, Quiet(old(uploader.store.steps)),
                         QuietBut(old(uploader.store.steps), mid))
      ensures Released(uploader.quota > 0, s.id, old(uploader.store.reservations), uploader.store.reservations,
                       Quiet(old(uploader.store.steps)))
      ensures old(keys.steps) <= keys.steps && old(uploader.store.steps) <= uploader.store.steps
      ensures keys.Quiet(old(keys.steps), keys.steps) && Quiet(old(uploader.store.steps)) ==>
                (err.None? <==> Finishable(s, old(keys.chunks), old(keys.parts), old(uploader.store.files),
                                           old(uploader.store.reservations)))
    {
      ghost var a, step0 := Now(), uploader.store.steps;
      err, row, data, path, mid := FinishClaimed(s);
      ghost var b, quiet, clean := Now(), Quiet(step0), QuietBut(step0, mid);
      if uploader.quota > 0 { var _ := uploader.store.ReleaseNamespaceReservation(s.id); }
      CommitEndsWider(s, a, b, Now(), row, data, path, quiet, clean, Quiet(step0), QuietBut(step0, mid));
    }

    /** What happens to a claimed session: it is never active again. */
    method FinishClaimed(s: UploadSession)
      returns (err: Option<Error>, row: Option<Row>, ghost data: Bytes, ghost path: Path, ghost mid: nat)
      requires IdsBelow(uploader.store.files, uploader.store.nextId) && s.length <= MAX_INT64
      requires s.chunkSize <= MAX_INT64
      requires PathsFree(uploader.store.disk, uploader.store.blobs, s.ns, uploader.show(s.id))
      requires keys.session == Some(s.(status := SessionFinalizing))
      modifies keys`session, keys`chunks, keys`offset, keys`parts, keys`steps
      modifies uploader.store`files, uploader.store`blobs, uploader.store`disk
      modifies uploader.store`reservations, uploader.store`nextId, uploader.store`steps
      ensures row.Some? <==> err.None?
      ensures keys.session == Some(s.(status := SessionFinalizing)) || (keys.session.None? && err.None?)
      ensures err.None? ==> Finished(s, old(keys.chunks), old(keys.parts), uploader.hash, decompress, emptySha, data)
      ensures Spent(Whole(old(keys.chunks), s.length, s.chunkSize, !s.compressed), old(keys.chunks), old(keys.parts),
                    keys.parts, keys.Quiet(old(keys.steps), keys.steps))
      ensures Tried(err, old(Now()), Now(), old(uploader.store.steps), mid)
      ensures CommitEnds(s, old(Now()), Now(), row, data, path, Quiet(old(uploader.store.steps)),
                         QuietBut(old(uploader.store.steps), mid))
      ensures old(keys.steps) <= keys.steps && old(uploader.store.steps) <= uploader.store.steps
      ensures keys.Quiet(old(keys.steps), keys.steps) && Quiet(old(uploader.store.steps)) ==>
                (err.None? <==> Finishable(s, old(keys.chunks), old(keys.parts), old(uploader.store.files),
                                           old(uploader.store.reservations)))
    {
      var cs;
      err, row, data, path, mid, cs := FinishListed(s);
      ghost var step1, b := keys.steps, Now();
      CleanUp(cs);
      RemovedSpent(s, old(keys.chunks), old(keys.parts), keys.parts, cs, keys.Quiet(step1, keys.steps),
                   keys.Quiet(old(keys.steps), keys.steps));
      assert Now() == b;
    }

    /** And before the parts are cleaned up. */
    method FinishListed(s: UploadSession)
      returns (err: Option<Error>, row: Option<Row>, ghost data: Bytes, ghost path: Path, ghost mid: nat,
               cs: seq<ChunkInfo>)
      requires IdsBelow(uploader.store.files, uploader.store.nextId) && s.length <= MAX_INT64
      requires s.chunkSize <= MAX_INT64
      requires PathsFree(uploader.store.disk, uploader.store.blobs, s.ns, uploader.show(s.id))
      requires keys.session == Some(s.(status := SessionFinalizing))
      modifies keys`session, keys`chunks, keys`offset, keys`steps
      modifies uploader.store`files, uploader.store`blobs, uploader.store`disk
      modifies uploader.store`reservations, uploader.store`nextId, uploader.store`steps
      ensures row.Some? <==> err.None?
      ensures keys.session == Some(s.(status := SessionFinalizing)) || (keys.session.None? && err.None?)
      ensures err.None? ==> Finished(s, old(keys.chunks), old(keys.parts), uploader.hash, decompress, emptySha, data)
      ensures var chunks, whole := old(keys.chunks), Whole(old(keys.chunks), s.length, s.chunkSize, !s.compressed);
              && (cs == [] || (ListsChunks(chunks, cs) && whole))
              && (keys.Quiet(old(keys.steps), keys.steps) && whole ==> ListsChunks(chunks, cs))
      ensures Tried(err, old(Now()), Now(), old(uploader.store.steps), mid)
      ensures CommitEnds(s, old(Now()), Now(), row, data, path, Quiet(old(uploader.store.steps)),
                         QuietBut(old(uploader.store.steps), mid))
      ensures old(keys.steps) <= keys.steps && old(uploader.store.steps) <= uploader.store.steps
      ensures keys.Quiet(old(keys.steps), keys.steps) && Quiet(old(uploader.store.steps)) ==>
                (err.None? <==> Finishable(s, old(keys.chunks), old(keys.parts), old(uploader.store.files),
                                           old(uploader.store.reservations)))
    {
      row, data, path, mid := None, [], PathOf(s, uploader.store.nextId), uploader.store.steps;
      NothingCommitted(s, Now(), true, true);
      var merged;
      err, cs, merged := Assemble(s);
      if err.None? {
        err, row, data, path, mid := FinishAssembled(s, cs, merged);
        if err.None? { AssembledFinished(s, old(keys.chunks), old(keys.parts), data); }
      }
    }

    lemma RemovedSpent(s: UploadSession, chunks: ChunkMap, parts: Parts, parts': Parts, cs: seq<ChunkInfo>, quiet: bool,
                       quiet': bool)
      requires Removed(parts, parts', cs, quiet) && (quiet' ==> quiet)
      requires cs == [] || (ListsChunks(chunks, cs) && Whole(chunks, s.length, s.chunkSize, !s.compressed))
      requires quiet' && Whole(chunks, s.length, s.chunkSize, !s.compressed) ==> ListsChunks(chunks, cs)
      ensures Spent(Whole(chunks, s.length, s.chunkSize, !s.compressed), chunks, parts, parts', quiet')
    {
      if quiet' && Whole(chunks, s.length, s.chunkSize, !s.compressed) {
        forall i | i in chunks ensures i !in parts' { assert ChunkInfo(i, chunks[i].sha, chunks[i].size) in cs; }
      }
    }

    ghost predicate Meets(data: Bytes, declared: Sha) { declared == "" || uploader.hash(data) == declared }

    lemma AssembledFinished(s: UploadSession, chunks: ChunkMap, parts: Parts, data: Bytes)
      requires Whole(chunks, s.length, s.chunkSize, !s.compressed)
      requires ContentOf(s, Merged(parts, |chunks|)) == Some(data) && Meets(data, Declared(s, chunks))
      ensures Finished(s, chunks, parts, uploader.hash, decompress, emptySha, data)
    {
    }

    /** And once its parts are merged. */
    method FinishAssembled(s: UploadSession, cs: seq<ChunkInfo>, merged: Bytes)
      returns (err: Option<Error>, row: Option<Row>, ghost data: Bytes, ghost path: Path, ghost mid: nat)
      requires IdsBelow(uploader.store.files, uploader.store.nextId)
      requires PathsFree(uploader.store.disk, uploader.store.blobs, s.ns, uploader.show(s.id))
      requires |cs| == |keys.chunks| && keys.session == Some(s.(status := SessionFinalizing))
      modifies keys`session, keys`chunks, keys`offset, keys`steps
      modifies uploader.store`files, uploader.store`blobs, uploader.store`disk
      modifies uploader.store`reservations, uploader.store`nextId, uploader.store`steps
      ensures row.Some? <==> err.None?
      ensures keys.session == Some(s.(status := SessionFinalizing)) || (keys.session.None? && err.None?)
      ensures err.None? ==> ContentOf(s, merged) == Some(data) && Meets(data, Declared(s, old(keys.chunks)))
      ensures Tried(err, old(Now()), Now(), old(uploader.store.steps), mid)
      ensures CommitEnds(s, old(Now()), Now(), row, data, path, Quiet(old(uploader.store.steps)),
                         QuietBut(old(uploader.store.steps), mid))
      ensures old(keys.steps) <= keys.steps && old(uploader.store.steps) <= uploader.store.steps
      ensures Quiet(old(uploader.store.steps)) ==>
                (err.None? <==> && ContentOf(s, merged).Some?
                                && Accepted(s, Declared(s, old(keys.chunks)), ContentOf(s, merged).value,
                                            old(uploader.store.files), old(uploader.store.reservations)))
    {
      var declared := if |cs| == 0 && s.sha == "" then emptySha else s.sha;
      err, row, data, path, mid := Verify(s, declared, merged);
      if err.None? { var _ := keys.DeleteSession(); }
    }

    /** Decompress and commit. */
    method Verify(s: UploadSession, declared: Sha, merged: Bytes)
      returns (err: Option<Error>, row: Option<Row>, ghost data: Bytes, ghost path: Path, ghost mid: nat)
      requires IdsBelow(uploader.store.files, uploader.store.nextId)
      requires PathsFree(uploader.store.disk, uploader.store.blobs, s.ns, uploader.show(s.id))
      modifies uploader.store`files, uploader.store`blobs, uploader.store`disk
      modifies uploader.store`reservations, uploader.store`nextId, uploader.store`steps
      ensures row.Some? <==> err.None?
      ensures err.None? ==> ContentOf(s, merged) == Some(data) && Meets(data, declared)
      ensures Tried(err, old(Now()), Now(), old(uploader.store.steps), mid)
      ensures CommitEnds(s, old(Now()), Now(), row, data, path, Quiet(old(uploader.store.steps)),
                         QuietBut(old(uploader.store.steps), mid))
      ensures old(uploader.store.steps) <= uploader.store.steps
      ensures Quiet(old(uploader.store.steps)) ==>
                (err.None? <==> && ContentOf(s, merged).Some?
                                && Accepted(s, declared, ContentOf(s, merged).value,
                                            old(uploader.store.files), old(uploader.store.reservations)))
    {
      row, data, path, mid := None, [], PathOf(s, uploader.store.nextId), uploader.store.steps;
      NothingCommitted(s, Now(), true, true);
      var content;
      err, content := Decompressed(s, merged);
      if err.None? {
        data := content;
        err, row, path, mid := Commit(s, declared, content);
      }
    }

    method Decompressed(s: UploadSession, merged: Bytes) returns (err: Option<Error>, data: Bytes)
      ensures ContentOf(s, merged) == if err.None? then Some(data) else None
    {
      if !s.compressed { return None, merged; }
      match decompress(merged)
      case None => return Some(StepFailed), [];
      case Some(d) => return None, d;
    }

    /** Chooses the path and commits. */
    method Commit(s: UploadSession, declared: Sha, content: Bytes)
      returns (err: Option<Error>, row: Option<Row>, ghost path: Path, ghost mid: nat)
      requires IdsBelow(uploader.store.files, uploader.store.nextId)
      requires PathsFree(uploader.store.disk, uploader.store.blobs, s.ns, uploader.show(s.id))
      modifies uploader.store`files, uploader.store`blobs, uploader.store`disk
      modifies uploader.store`reservations, uploader.store`nextId, uploader.store`steps
      ensures row.Some? <==> err.None?
      ensures err.None? ==> declared == "" || uploader.hash(content) == declared
      ensures Tried(err, old(Now()), Now(), old(uploader.store.steps), mid)
      ensures CommitEnds(s, old(Now()), Now(), row, content, path, Quiet(old(uploader.store.steps)),
                         QuietBut(old(uploader.store.steps), mid))
      ensures old(uploader.store.steps) <= uploader.store.steps
      ensures Quiet(old(uploader.store.steps)) ==>
                (err.None? <==> Accepted(s, declared, content, old(uploader.store.files),
                                         old(uploader.store.reservations)))
    {
      path := PathOf(s, uploader.store.nextId);
      var fileName := s.fileName;
      if fileName == "" {
        var id := uploader.store.NewID();
        fileName := uploader.show(id);
      }
      var where := FlatPath(s.ns, uploader.show(s.id), safe(fileName));
      err, row, mid := uploader.CommitStream(s.id, s.ns, s.fileName, declared, where, content);
    }
  }

  /** Parts have gone that the list names, and with nothing failing all of them. */
  ghost predicate Removed(parts: Parts, parts': Parts, cs: seq<ChunkInfo>, quiet: bool) {
    && parts' == parts - (parts.Keys - parts'.Keys)
    && (forall i | i in parts && i !in parts' :: exists c :: c in cs && c.index == i)
    && (quiet ==> forall c | c in cs :: c.index !in parts')
  }

  /** The parts of the session's chunks are gone if the chunks were whole, whether or not the
      upload was then accepted; nothing else is. */
  ghost predicate Spent(whole: bool, chunks: ChunkMap, parts: Parts, parts': Parts, quiet: bool) {
    && parts' == parts - (parts.Keys - parts'.Keys)
    && (forall i | i in parts && i !in parts' :: i >= 0 && i in chunks)
    && (!whole ==> parts' == parts)
    && (quiet && whole ==> forall i | i in chunks :: i !in parts')
  }

  /** The store at one moment. */
  datatype Shot = Shot(t: Tables, disk: Disk, next: Id, reservations: Reservations)

  /** What a successful finalize has put together. */
  ghost predicate Finished(s: UploadSession, chunks: ChunkMap, parts: Parts, hash: Bytes -> Sha,
                           decompress: Bytes -> Option<Bytes>, emptySha: Sha, data: Bytes) {
    && (s.sha != "" ==> hash(data) == s.sha)
    && (s.sha == "" && chunks == map[] && emptySha != "" ==> hash(data) == emptySha)
    && Whole(chunks, s.length, s.chunkSize, !s.compressed)
    && if s.compressed then decompress(Merged(parts, |chunks|)) == Some(data) else data == Merged(parts, |chunks|)
  }

  /** Every chunk has its part. */
  ghost predicate PartsThere(chunks: ChunkMap, parts: Parts) {
    forall i: nat | i in chunks :: i in parts
  }

  lemma PartsListed(chunks: ChunkMap, cs: seq<ChunkInfo>, parts: Parts)
    requires ListsChunks(chunks, cs)
    ensures PartsThere(chunks, parts) <==> forall c | c in cs :: c.index in parts
  {
  }

  /** End to end: a finalized uncompressed upload that only took offset-checked appends is the
      accepted bodies in order, of the declared length, under the declared hash. */
  lemma FinishedIsStream(s: UploadSession, chunks: ChunkMap, parts: Parts, counter: int, hash: Bytes -> Sha,
                         decompress: Bytes -> Option<Bytes>, emptySha: Sha, data: Bytes)
    requires Finished(s, chunks, parts, hash, decompress, emptySha, data) && !s.compressed
    requires Resumable(chunks, parts, counter, s.chunkSize, hash)
    ensures data == Received(chunks, parts) && |data| == s.length == counter
    ensures s.sha != "" ==> hash(data) == s.sha
  {
    var cs := seq(|chunks|, i requires 0 <= i < |chunks| => ChunkInfo(i, chunks[i].sha, chunks[i].size));
    assert ListsChunks(chunks, cs) by {
      forall i | i in chunks ensures ChunkInfo(i, chunks[i].sha, chunks[i].size) in cs { assert cs[i].index == i; }
    }
    ListedTotal(chunks, cs);
    WholeListed(chunks, cs, s.length, s.chunkSize, true);
    StackedAccepts(chunks, s.chunkSize, cs, s.length);
    ReceivedMerged(chunks, parts, s.chunkSize, hash);
    if s.length > 0 {
      forall c: ChunkInfo | c in cs ensures c.index in parts && |parts[c.index]| == c.size { assert c.index in chunks; }
      TilesLength(cs, parts, s.chunkSize, s.length);
    }
  }
}
