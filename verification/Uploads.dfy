/** One resumable upload: its Redis keys and its parts directory
    (internal/adapters/metadata/redis.go), the offset-checked append and the finalize that
    turns the parts into a file (internal/domain/upload.go:229-309, 370-412, 534-624). */
module Uploads {
  import opened Types
  import opened Sums
  import opened Chunks

  datatype Status = SessionActive | SessionFinalizing

  datatype UploadSession = UploadSession(
    id: Id, sha: Sha, length: int, compressed: bool, chunkSize: int, ns: string, fileName: string, status: Status)

  /** A field of the chunks hash. */
  datatype Chunk = Chunk(sha: Sha, size: nat)

  type ChunkMap = map<nat, Chunk>

  const MAX_UPLOAD_CHUNK_SIZE: int := 64 * 1024 * 1024

  function ChunkSizes(chunks: ChunkMap): map<nat, nat> { map i | i in chunks :: chunks[i].size }

  /** The bytes recorded: what GetOffset reports. */
  ghost function Recorded(chunks: ChunkMap): nat { Total(ChunkSizes(chunks)) }

  lemma RecordedRemove(chunks: ChunkMap, i: nat)
    requires i in chunks
    ensures Recorded(chunks) == chunks[i].size + Recorded(chunks - {i})
  {
    TotalRemove(ChunkSizes(chunks), i);
    assert ChunkSizes(chunks) - {i} == ChunkSizes(chunks - {i});
  }

  lemma RecordedUpdate(chunks: ChunkMap, i: nat, c: Chunk)
    ensures Recorded(chunks[i := c]) == Recorded(chunks) + c.size - SizeAt(chunks, i)
  {
    TotalUpdate(ChunkSizes(chunks), i, c.size);
    assert ChunkSizes(chunks[i := c]) == ChunkSizes(chunks)[i := c.size];
  }

  function SizeAt(chunks: ChunkMap, i: nat): nat { if i in chunks then chunks[i].size else 0 }

  /** Each entry of the hash once. */
  ghost predicate ListsChunks(chunks: ChunkMap, cs: seq<ChunkInfo>) {
    && (forall c | c in cs ::
          c.index >= 0 && c.index in chunks && c == ChunkInfo(c.index, chunks[c.index].sha, chunks[c.index].size))
    && (forall i, j | 0 <= i < j < |cs| :: cs[i].index != cs[j].index)
    && (forall i | i in chunks :: ChunkInfo(i, chunks[i].sha, chunks[i].size) in cs)
  }

  lemma ListsSnoc(chunks: ChunkMap, cs: seq<ChunkInfo>, i: nat, c: Chunk)
    requires ListsChunks(chunks, cs) && i !in chunks
    ensures ListsChunks(chunks[i := c], cs + [ChunkInfo(i, c.sha, c.size)])
  {
  }

  function SumSizes(cs: seq<ChunkInfo>): int {
    if cs == [] then 0 else SumSizes(cs[..|cs| - 1]) + cs[|cs| - 1].size
  }

  lemma ListsInit(chunks: ChunkMap, cs: seq<ChunkInfo>, rest: ChunkMap)
    requires ListsChunks(chunks, cs) && cs != [] && rest == chunks - {cs[|cs| - 1].index}
    ensures ListsChunks(rest, cs[..|cs| - 1])
  {
  }

  lemma {:induction false} ListedTotal(chunks: ChunkMap, cs: seq<ChunkInfo>)
    requires ListsChunks(chunks, cs)
    ensures SumSizes(cs) == Recorded(chunks) && |cs| == |chunks|
    decreases |cs|
  {
    if cs == [] {
      assert chunks == map[];
      assert ChunkSizes(chunks) == map[];
    } else {
      var c := cs[|cs| - 1];
      assert c in cs;
      var rest: ChunkMap := chunks - {c.index};
      ListsInit(chunks, cs, rest);
      ListedTotal(rest, cs[..|cs| - 1]);
      RecordedRemove(chunks, c.index);
      assert chunks.Keys == rest.Keys + {c.index};
    }
  }

  // ---------- the shape of a resumable upload ----------

  /** Chunks 0, 1, ..., `n` of them; all but the last of the full size. */
  ghost predicate StackOf(chunks: ChunkMap, n: nat, chunkSize: int) {
    && chunkSize > 0
    && (forall i: nat :: i in chunks <==> i < n)
    && (forall i | i in chunks :: chunks[i].size <= chunkSize && (i < n - 1 ==> chunks[i].size == chunkSize))
  }

  ghost predicate Stacked(chunks: ChunkMap, chunkSize: int) { StackOf(chunks, |chunks|, chunkSize) }

  lemma {:induction false} StackCount(chunks: ChunkMap, n: nat)
    requires forall i: nat :: i in chunks <==> i < n
    ensures |chunks| == n
    decreases n
  {
    if n == 0 {
      assert chunks == map[];
    } else {
      StackCount(chunks - {n - 1}, n - 1);
      assert chunks.Keys == (chunks - {n - 1}).Keys + {n - 1};
    }
  }

  /** Every recorded chunk with content has its part on disk, with the recorded hash. */
  ghost predicate Backed(chunks: ChunkMap, parts: Parts, hash: Bytes -> Sha) {
    forall i | i in chunks && chunks[i].size > 0 ::
      i in parts && |parts[i]| == chunks[i].size && hash(parts[i]) == chunks[i].sha
  }

  /** The state a resumable upload is always in: both offsets agree with what is there. */
  ghost predicate Resumable(chunks: ChunkMap, parts: Parts, counter: int, chunkSize: int, hash: Bytes -> Sha) {
    Stacked(chunks, chunkSize) && Backed(chunks, parts, hash) && counter == Recorded(chunks)
  }

  /** The parts that count: those a non-empty chunk stands for. */
  ghost function Kept(chunks: ChunkMap, parts: Parts): Parts {
    map i | i in parts && i >= 0 && i in chunks && chunks[i].size > 0 :: parts[i]
  }

  /** The bytes received so far. */
  ghost function Received(chunks: ChunkMap, parts: Parts): Bytes { Merged(Kept(chunks, parts), |chunks|) }

  lemma OneMore(n: int, b: int)
    ensures (n + 1) * b == n * b + b
  {
  }

  /** The recorded size, by the shape. */
  lemma {:induction false} StackTotal(chunks: ChunkMap, n: nat, chunkSize: int)
    requires StackOf(chunks, n, chunkSize)
    ensures Recorded(chunks) == if n == 0 then 0 else (n - 1) * chunkSize + chunks[n - 1].size
    decreases n
  {
    if n == 0 {
      assert ChunkSizes(chunks) == map[];
    } else {
      var rest: ChunkMap := chunks - {n - 1};
      StackTotal(rest, n - 1, chunkSize);
      RecordedRemove(chunks, n - 1);
      OneMore(n - 2, chunkSize);
    }
  }

  /** A multiple of the chunk size is recorded only when the last chunk is full or empty: the
      next index is the number of full chunks. */
  lemma NextIndex(chunks: ChunkMap, chunkSize: int, index: int)
    requires Stacked(chunks, chunkSize) && Recorded(chunks) == index * chunkSize && index >= 0
    ensures index == |chunks| || (index == |chunks| - 1 && chunks[index].size == 0)
    ensures index == |chunks| > 0 ==> chunks[index - 1].size == chunkSize
  {
    var n := |chunks|;
    StackTotal(chunks, n, chunkSize);
    if n == 0 {
      if index > 0 { MulStep(0, index, chunkSize); }
    } else {
      var last := chunks[n - 1].size;
      if index < n - 1 { MulStep(index, n - 1, chunkSize); }
      if index > n - 1 { MulStep(n - 1, index, chunkSize); }
      if index > n { MulStep(n, index, chunkSize); MulStep(n - 1, n, chunkSize); }
    }
  }

  /** Some offset is both the current one and a multiple of the chunk size exactly when there
      is no chunk yet or the last one is full or empty. */
  lemma ShortChunkSticks(chunks: ChunkMap, chunkSize: int)
    requires Stacked(chunks, chunkSize)
    ensures (exists index: nat {:trigger AtIndex(chunks, chunkSize, index)} :: AtIndex(chunks, chunkSize, index))
            <==> |chunks| == 0 || chunks[|chunks| - 1].size == 0 || chunks[|chunks| - 1].size == chunkSize
  {
    var n := |chunks|;
    StackTotal(chunks, n, chunkSize);
    if index: nat :| AtIndex(chunks, chunkSize, index) { NextIndex(chunks, chunkSize, index); }
    if n == 0 {
      assert AtIndex(chunks, chunkSize, 0);
    } else if chunks[n - 1].size == 0 {
      assert AtIndex(chunks, chunkSize, n - 1);
    } else if chunks[n - 1].size == chunkSize {
      OneMore(n - 1, chunkSize);
      assert AtIndex(chunks, chunkSize, n);
    }
  }

  /** The next byte is the first of a chunk. */
  ghost predicate AtIndex(chunks: ChunkMap, chunkSize: int, index: nat) { Recorded(chunks) == index * chunkSize }

  lemma StackAppend(chunks: ChunkMap, n: nat, chunkSize: int, index: nat, c: Chunk)
    requires StackOf(chunks, n, chunkSize) && c.size <= chunkSize
    requires index == n || index == n - 1
    requires index == n > 0 ==> chunks[index - 1].size == chunkSize
    ensures StackOf(chunks[index := c], index + 1, chunkSize) && |chunks[index := c]| == index + 1
  {
    StackCount(chunks[index := c], index + 1);
  }

  /** One accepted append: the shape stays, and the stream grows by exactly the body. */
  lemma AppendStacks(chunks: ChunkMap, parts: Parts, counter: int, chunkSize: int, hash: Bytes -> Sha, index: nat,
                     body: Bytes)
    requires Resumable(chunks, parts, counter, chunkSize, hash)
    requires Recorded(chunks) == index * chunkSize && |body| <= chunkSize
    ensures var chunks' := chunks[index := Chunk(hash(body), |body|)];
            && Resumable(chunks', parts[index := body], counter + |body| - SizeAt(chunks, index), chunkSize, hash)
            && Received(chunks', parts[index := body]) == Received(chunks, parts) + body
            && Recorded(chunks') == Recorded(chunks) + |body|
  {
    var chunks': ChunkMap := chunks[index := Chunk(hash(body), |body|)];
    var parts': Parts := parts[index := body];
    NextIndex(chunks, chunkSize, index);
    StackAppend(chunks, |chunks|, chunkSize, index, Chunk(hash(body), |body|));
    RecordedUpdate(chunks, index, Chunk(hash(body), |body|));
    AppendStream(chunks, parts, index, Chunk(hash(body), |body|), body);
  }

  lemma AppendStream(chunks: ChunkMap, parts: Parts, index: nat, c: Chunk, body: Bytes)
    requires (index == |chunks| || (index == |chunks| - 1 && index in chunks && chunks[index].size == 0))
    requires c.size == |body|
    requires |chunks[index := c]| == index + 1
    ensures Received(chunks[index := c], parts[index := body]) == Received(chunks, parts) + body
  {
    var chunks': ChunkMap := chunks[index := c];
    var parts': Parts := parts[index := body];
    MergedSame(Kept(chunks', parts'), Kept(chunks, parts), index);
    assert Merged(Kept(chunks', parts'), index + 1) == Merged(Kept(chunks, parts), index) + body;
  }

  /** Other parts do not matter. */
  lemma StrayPart(chunks: ChunkMap, parts: Parts, parts': Parts, counter: int, chunkSize: int, hash: Bytes -> Sha,
                  index: nat)
    requires Resumable(chunks, parts, counter, chunkSize, hash) && Recorded(chunks) == index * chunkSize
    requires parts' - {index} == parts - {index}
    ensures Resumable(chunks, parts', counter, chunkSize, hash) && Received(chunks, parts') == Received(chunks, parts)
  {
    NextIndex(chunks, chunkSize, index);
    forall i: int | i != index ensures (i in parts <==> i in parts') && (i in parts ==> parts[i] == parts'[i]) {
      assert i in parts <==> i in parts - {index};
      assert i in parts' <==> i in parts' - {index};
    }
    MergedSame(Kept(chunks, parts), Kept(chunks, parts'), |chunks|);
  }

  /** When every chunk has content, what was received is the merge of the parts. */
  lemma ReceivedMerged(chunks: ChunkMap, parts: Parts, chunkSize: int, hash: Bytes -> Sha)
    requires Stacked(chunks, chunkSize) && Backed(chunks, parts, hash) && forall i | i in chunks :: chunks[i].size > 0
    ensures Received(chunks, parts) == Merged(parts, |chunks|)
  {
    MergedSame(Kept(chunks, parts), parts, |chunks|);
  }

  /** A resumable upload is complete exactly when all bytes are there and no empty chunk
      trails them; an empty upload never is once an empty chunk was recorded. */
  lemma StackedAccepts(chunks: ChunkMap, chunkSize: int, cs: seq<ChunkInfo>, length: int)
    requires Stacked(chunks, chunkSize) && ListsChunks(chunks, cs)
    ensures Accepts(cs, length, chunkSize, true) <==>
            && length == Recorded(chunks) && (forall i | i in chunks :: chunks[i].size > 0)
            && (length > 0 ==> length + chunkSize - 1 <= MAX_INT64)
  {
    ListedTotal(chunks, cs);
    if chunks == map[] {
      StackTotal(chunks, 0, chunkSize);
    } else if forall i | i in chunks :: chunks[i].size > 0 {
      StackTiles(chunks, |chunks|, chunkSize, cs, length);
      StackedPositive(chunks, chunkSize);
    } else {
      EmptyChunkRefused(chunks, cs, length, chunkSize);
    }
  }

  lemma StackedPositive(chunks: ChunkMap, chunkSize: int)
    requires Stacked(chunks, chunkSize) && chunks != map[] && forall i | i in chunks :: chunks[i].size > 0
    ensures Recorded(chunks) == (|chunks| - 1) * chunkSize + chunks[|chunks| - 1].size > 0
  {
    var n := |chunks|;
    StackTotal(chunks, n, chunkSize);
    if n > 1 { MulStep(0, n - 1, chunkSize); }
  }

  lemma EmptyChunkRefused(chunks: ChunkMap, cs: seq<ChunkInfo>, length: int, chunkSize: int)
    requires ListsChunks(chunks, cs) && exists i :: i in chunks && chunks[i].size == 0
    ensures !Accepts(cs, length, chunkSize, true)
  {
  }

  lemma StackTiles(chunks: ChunkMap, n: nat, chunkSize: int, cs: seq<ChunkInfo>, length: int)
    requires StackOf(chunks, n, chunkSize) && ListsChunks(chunks, cs) && |cs| == n > 0
    requires forall i | i in chunks :: chunks[i].size > 0
    ensures Tiles(cs, chunkSize, length) <==> length == (n - 1) * chunkSize + chunks[n - 1].size
  {
  }

  /** The chunks a finalize accepts, of a declared length: chunks 0, 1, ... of sizes in range and,
      where the length is enforced, all full but the last, which ends exactly at it. */
  ghost predicate Whole(chunks: ChunkMap, length: int, chunkSize: int, exact: bool) {
    && length >= 0 && chunkSize > 0
    && if length == 0 then chunks == map[]
       else && chunks != map[] && (forall i | i in chunks :: i < |chunks| && 0 < chunks[i].size <= chunkSize)
            && (exact ==> length + chunkSize - 1 <= MAX_INT64
                          && forall i | i in chunks ::
                               chunks[i].size == if i < |chunks| - 1 then chunkSize
                               else length - (|chunks| - 1) * chunkSize)
  }

  /** The check of the listed chunks is about the recorded ones, in whatever order they come. */
  lemma WholeListed(chunks: ChunkMap, cs: seq<ChunkInfo>, length: int, chunkSize: int, exact: bool)
    requires ListsChunks(chunks, cs) && |cs| == |chunks|
    ensures Accepts(cs, length, chunkSize, exact) <==> Whole(chunks, length, chunkSize, exact)
  {
  }

  class SessionKeys {
    var session: Option<UploadSession>
    var chunks: ChunkMap
    var offset: int
    var parts: Parts
    var steps: nat
    const faults: iset<nat>

    constructor (session: UploadSession, faults: iset<nat>)
      ensures this.session == Some(session) && chunks == map[] && offset == 0 && parts == map[] && this.faults == faults
    {
      this.session, chunks, offset, parts, steps := Some(session), map[], 0, map[], 0;
      this.faults := faults;
    }

    ghost predicate Quiet(from: nat, to: nat) {
      forall i: nat | from <= i < to :: i !in faults
    }

    method Step() returns (err: Option<Error>)
      modifies this`steps
      ensures steps == old(steps) + 1
      ensures err == if old(steps) in faults then Some(StepFailed) else None
    {
      err := if steps in faults then Some(StepFailed) else None;
      steps := steps + 1;
    }

    method GetSession() returns (err: Option<Error>, s: Option<UploadSession>)
      modifies this`steps
      ensures steps == old(steps) + 1
      ensures err == if old(steps) in faults then Some(StepFailed) else None
      ensures s == if err.None? then session else None
    {
      err := Step();
      s := if err.None? then session else None;
    }

    /** The hash in some order. */
    method ListChunks() returns (err: Option<Error>, cs: seq<ChunkInfo>)
      modifies this`steps
      ensures steps == old(steps) + 1
      ensures err == if old(steps) in faults then Some(StepFailed) else None
      ensures err.None? ==> ListsChunks(chunks, cs)
    {
      err := Step();
      cs := [];
      if err.Some? { return; }
      var done: ChunkMap := map[];
      var todo := chunks.Keys;
      while todo != {}
        invariant steps == old(steps) + 1
        invariant todo <= chunks.Keys && done == chunks - todo && ListsChunks(done, cs)
      {
        var i :| i in todo;
        ListsSnoc(done, cs, i, chunks[i]);
        cs := cs + [ChunkInfo(i, chunks[i].sha, chunks[i].size)];
        done := done[i := chunks[i]];
        todo := todo - {i};
      }
      assert done == chunks;
    }

    /** The Lua script: replace the chunk, move the counter by the difference. */
    method UpdateOffset(index: nat, sha: Sha, bytes: nat) returns (err: Option<Error>)
      modifies this`chunks, this`offset, this`steps
      ensures steps == old(steps) + 1
      ensures err == if old(steps) in faults then Some(StepFailed) else None
      ensures err.None? ==> chunks == old(chunks)[index := Chunk(sha, bytes)]
                            && offset == old(offset) + bytes - SizeAt(old(chunks), index)
      ensures err.Some? ==> chunks == old(chunks) && offset == old(offset)
    {
      err := Step();
      if err.Some? { return; }
      var previousSize := SizeAt(chunks, index);
      chunks := chunks[index := Chunk(sha, bytes)];
      offset := offset + bytes - previousSize;
    }

    /** A failed write leaves no part. */
    method WritePart(index: nat, data: Bytes) returns (err: Option<Error>)
      modifies this`parts, this`steps
      ensures steps == old(steps) + 1
      ensures err == if old(steps) in faults then Some(StepFailed) else None
      ensures parts == if err.None? then old(parts)[index := data] else old(parts) - {index}
    {
      err := Step();
      parts := if err.None? then parts[index := data] else parts - {index};
    }

    method DeletePart(index: int) returns (err: Option<Error>)
      modifies this`parts, this`steps
      ensures steps == old(steps) + 1
      ensures err == if old(steps) in faults then Some(StepFailed) else None
      ensures parts == if err.None? then old(parts) - {index} else old(parts)
    {
      err := Step();
      if err.None? { parts := parts - {index}; }
    }

    method OpenPart(index: int) returns (err: Option<Error>, data: Bytes)
      modifies this`steps
      ensures steps == old(steps) + 1
      ensures err == if old(steps) in faults then Some(StepFailed) else if index in parts then None else Some(NotFound)
      ensures err.None? ==> data == parts[index]
    {
      err := Step();
      data := [];
      if err.Some? { return; }
      if index !in parts { return Some(NotFound), []; }
      data := parts[index];
    }

    /** WATCH, compare, set: one atomic step from active to finalizing. */
    method ClaimSessionFinalizing() returns (err: Option<Error>, s: Option<UploadSession>)
      modifies this`session, this`steps
      ensures steps == old(steps) + 1
      ensures err == if old(steps) in faults then Some(StepFailed)
                     else if old(session).None? then Some(SessionNotFound)
                     else if !old(session).value.status.SessionActive? then Some(SessionState)
                     else None
      ensures err.None? ==> s == session == Some(old(session).value.(status := SessionFinalizing))
      ensures err.Some? ==> session == old(session)
    {
      err := Step();
      s := None;
      if err.Some? { return; }
      if session.None? { return Some(SessionNotFound), None; }
      if !session.value.status.SessionActive? { return Some(SessionState), None; }
      session := Some(session.value.(status := SessionFinalizing));
      s := session;
    }

    method DeleteSession() returns (err: Option<Error>)
      modifies this`session, this`chunks, this`offset, this`steps
      ensures steps == old(steps) + 1
      ensures err == if old(steps) in faults then Some(StepFailed) else None
      ensures err.None? ==> session.None? && chunks == map[] && offset == 0
      ensures err.Some? ==> session == old(session) && chunks == old(chunks) && offset == old(offset)
    {
      err := Step();
      if err.None? { session, chunks, offset := None, map[], 0; }
    }
  }
}
