/** The services over one resumable upload: the offset-checked append and the finalize
    (internal/domain/upload.go). */
module Sessions {
  import opened Types
  import opened Chunks
  import opened Uploads

  /** The request that may be appended: the state, the owner, the offset, the size, the sum. */
  ghost predicate Appendable(s: Option<UploadSession>, at: nat, ns: string, offset: int, body: Bytes, declared: Sha,
                             maxInFlight: int, hash: Bytes -> Sha) {
    && s.Some? && s.value.ns == ns && offset == at && s.value.chunkSize > 0 && offset % s.value.chunkSize == 0
    && Takes(s.value, body, declared, maxInFlight, hash)
  }

  /** The session takes such a body. */
  ghost predicate Takes(s: UploadSession, body: Bytes, declared: Sha, maxInFlight: int, hash: Bytes -> Sha) {
    && s.status.SessionActive?
    && 0 < MaxBytes(s.chunkSize, maxInFlight) && |body| <= MaxBytes(s.chunkSize, maxInFlight)
    && (declared == "" || hash(body) == declared)
  }

  /** What a session answers to a body. */
  function TakesAnswer(s: UploadSession, body: Bytes, declared: Sha, maxInFlight: int, hash: Bytes -> Sha)
    : Option<Error>
  {
    if !s.status.SessionActive? then Some(SessionState)
    else if MaxBytes(s.chunkSize, maxInFlight) <= 0 || |body| > MaxBytes(s.chunkSize, maxInFlight)
    then Some(InvalidArgument)
    else if declared != "" && hash(body) != declared then Some(SliceChecksum)
    else None
  }

  /** To one for an offset that names a chunk, with the offset it reports. */
  function CurrentAnswer(s: UploadSession, at: nat, offset: int, body: Bytes, declared: Sha, maxInFlight: int,
                         hash: Bytes -> Sha): (Option<Error>, int)
  {
    if offset != at then (Some(OffsetConflict), at)
    else
      var err := TakesAnswer(s, body, declared, maxInFlight, hash);
      (err, if err.None? then offset + |body| else 0)
  }

  /** And to any request. */
  function AppendAnswer(s: Option<UploadSession>, at: nat, ns: string, offset: int, body: Bytes, declared: Sha,
                        maxInFlight: int, hash: Bytes -> Sha): (Option<Error>, int)
  {
    if s.None? then (Some(SessionNotFound), 0)
    else if s.value.ns != ns then (Some(Forbidden), 0)
    else if offset < 0 || s.value.chunkSize <= 0 || offset % s.value.chunkSize != 0 then (Some(OffsetConflict), 0)
    else CurrentAnswer(s.value, at, offset, body, declared, maxInFlight, hash)
  }

  /** The most one request may carry. */
  function MaxBytes(chunkSize: int, maxInFlight: int): int {
    var limit := if chunkSize <= 0 || chunkSize > MAX_UPLOAD_CHUNK_SIZE then MAX_UPLOAD_CHUNK_SIZE else chunkSize;
    if limit > maxInFlight then maxInFlight else limit
  }

  /** So many bytes fit one request: within the memory bound, 64 MiB, and the chunk size. */
  lemma MaxBytesMeans(chunkSize: int, maxInFlight: int, n: int)
    ensures n <= MaxBytes(chunkSize, maxInFlight) <==>
            n <= maxInFlight && n <= 67_108_864 && (chunkSize > 0 ==> n <= chunkSize)
  {
  }

  class Appender {
    const keys: SessionKeys
    const maxInFlight: int
    const hash: Bytes -> Sha

    constructor (keys: SessionKeys, maxInFlight: int, hash: Bytes -> Sha)
      ensures this.keys == keys && this.maxInFlight == maxInFlight && this.hash == hash
    {
      this.keys, this.maxInFlight, this.hash := keys, maxInFlight, hash;
    }

    /** The invariant of a session that only ever took offset-checked appends. */
    ghost predicate Valid()
      reads keys
    {
      keys.session.Some? ==> Resumable(keys.chunks, keys.parts, keys.offset, keys.session.value.chunkSize, hash)
    }

    ghost function Stream(): Bytes
      reads keys
    {
      Received(keys.chunks, keys.parts)
    }

    /** upload.go:287-309: write, compare, record. */
    method ProcessChunkBytes(index: nat, data: Bytes, declared: Sha) returns (err: Option<Error>)
      modifies keys`chunks, keys`offset, keys`parts, keys`steps
      ensures old(keys.steps) < keys.steps
      ensures err.None? ==> (declared == "" || hash(data) == declared)
                            && keys.chunks == old(keys.chunks)[index := Chunk(hash(data), |data|)]
                            && keys.offset == old(keys.offset) + |data| - SizeAt(old(keys.chunks), index)
                            && keys.parts == old(keys.parts)[index := data]
      ensures err.Some? ==> keys.chunks == old(keys.chunks) && keys.offset == old(keys.offset)
                            && keys.parts - {index} == old(keys.parts) - {index}
      ensures keys.Quiet(old(keys.steps), keys.steps) ==>
                err == if declared == "" || hash(data) == declared then None else Some(SliceChecksum)
    {
      err := keys.WritePart(index, data);
      if err.Some? { return; }
      if declared != "" && hash(data) != declared {
        var _ := keys.DeletePart(index);
        return Some(SliceChecksum);
      }
      err := keys.UpdateOffset(index, hash(data), |data|);
    }

    /** upload.go:229-283. Reading the body, the queue and the wait for the worker may each
        fail; after a failed wait the chunk has been recorded all the same. */
    method AppendChunkForSession(s: UploadSession, index: int, body: Bytes, declared: Sha)
      returns (err: Option<Error>, ghost recorded: bool)
      modifies keys`chunks, keys`offset, keys`parts, keys`steps
      ensures old(keys.steps) <= keys.steps
      ensures err.None? ==> recorded
      ensures recorded ==> s.status.SessionActive? && index >= 0
                           && 0 < MaxBytes(s.chunkSize, maxInFlight) && |body| <= MaxBytes(s.chunkSize, maxInFlight)
                           && (declared == "" || hash(body) == declared)
                           && keys.chunks == old(keys.chunks)[index := Chunk(hash(body), |body|)]
                           && keys.offset == old(keys.offset) + |body| - SizeAt(old(keys.chunks), index)
                           && keys.parts == old(keys.parts)[index := body]
      ensures !recorded ==> keys.chunks == old(keys.chunks) && keys.offset == old(keys.offset)
                            && keys.parts - {index} == old(keys.parts) - {index}
      ensures keys.Quiet(old(keys.steps), keys.steps) ==>
                err == if s.status.SessionActive? && index < 0 then Some(InvalidArgument)
                       else TakesAnswer(s, body, declared, maxInFlight, hash)
    {
      recorded := false;
      if !s.status.SessionActive? { return Some(SessionState), false; }
      if index < 0 { return Some(InvalidArgument), false; }
      var maxBytes := MaxBytes(s.chunkSize, maxInFlight);
      if maxBytes <= 0 { return Some(InvalidArgument), false; }
      err := keys.Step();
      if err.Some? { return; }
      if |body| > maxBytes { return Some(InvalidArgument), false; }
      err := keys.Step();
      if err.Some? { return; }
      err := ProcessChunkBytes(index, body, declared);
      recorded := err.None?;
      if err.None? { err := keys.Step(); }
    }

    /** The sum of the recorded sizes. */
    method GetOffset() returns (err: Option<Error>, total: int)
      modifies keys`steps
      ensures old(keys.steps) <= keys.steps
      ensures err.None? ==> keys.session.Some? && total == Recorded(keys.chunks)
      ensures err.Some? ==> total == 0
      ensures keys.Quiet(old(keys.steps), keys.steps) ==>
                err == if keys.session.Some? then None else Some(SessionNotFound)
    {
      total := 0;
      var s, cs;
      err, s := keys.GetSession();
      if err.Some? { return; }
      if s.None? { return Some(SessionNotFound), 0; }
      err, cs := keys.ListChunks();
      if err.Some? { return; }
      ListedTotal(keys.chunks, cs);
      for i := 0 to |cs|
        invariant total == SumSizes(cs[..i])
      {
        assert cs[..i + 1][..i] == cs[..i];
        total := total + cs[i].size;
      }
      assert cs[..|cs|] == cs;
    }

    /** upload.go:370-389, and the PATCH rules of the tus resumable upload protocol 1.0.0: the
        offset must be the current one. Whatever fails, the stream either keeps what it had
        or grows by the whole body; with nothing failing it grows exactly for the requests
        `Appendable` describes. */
    method AppendChunkAtOffset(ns: string, offset: int, body: Bytes, declared: Sha)
      returns (err: Option<Error>, at: int, ghost recorded: bool)
      requires Valid()
      modifies keys`chunks, keys`offset, keys`parts, keys`steps
      ensures Valid() && old(keys.steps) <= keys.steps
      ensures Stream() == old(Stream()) + if recorded then body else []
      ensures Recorded(keys.chunks) == old(Recorded(keys.chunks)) + if recorded then |body| else 0
      ensures recorded ==>
                Appendable(keys.session, old(Recorded(keys.chunks)), ns, offset, body, declared, maxInFlight, hash)
      ensures err.None? ==> recorded && at == offset + |body|
      ensures keys.Quiet(old(keys.steps), keys.steps) ==>
                (err.None? <==> Appendable(keys.session, old(Recorded(keys.chunks)), ns, offset, body, declared,
                                           maxInFlight, hash))
      ensures keys.Quiet(old(keys.steps), keys.steps) ==>
                (err, at) == AppendAnswer(keys.session, old(Recorded(keys.chunks)), ns, offset, body, declared,
                                          maxInFlight, hash)
    {
      at, recorded := 0, false;
      var s;
      err, s := keys.GetSession();
      if err.Some? { return; }
      if s.None? { return Some(SessionNotFound), 0, false; }
      if s.value.ns != ns { return Some(Forbidden), 0, false; }
      if offset < 0 || s.value.chunkSize <= 0 || offset % s.value.chunkSize != 0 {
        return Some(OffsetConflict), 0, false;
      }
      DivMod(offset, s.value.chunkSize);
      err, at, recorded := AppendCurrent(s.value, offset, offset / s.value.chunkSize, body, declared);
    }

    /** Once the offset is known to name a chunk. */
    method AppendCurrent(s: UploadSession, offset: int, index: int, body: Bytes, declared: Sha)
      returns (err: Option<Error>, at: int, ghost recorded: bool)
      requires Valid() && keys.session == Some(s) && s.chunkSize > 0 && index >= 0
      requires offset == Recorded(keys.chunks) ==> AtIndex(keys.chunks, s.chunkSize, index)
      modifies keys`chunks, keys`offset, keys`parts, keys`steps
      ensures Valid() && old(keys.steps) <= keys.steps
      ensures Stream() == old(Stream()) + if recorded then body else []
      ensures Recorded(keys.chunks) == old(Recorded(keys.chunks)) + if recorded then |body| else 0
      ensures recorded ==> offset == old(Recorded(keys.chunks)) && Takes(s, body, declared, maxInFlight, hash)
      ensures err.None? ==> recorded && at == offset + |body|
      ensures keys.Quiet(old(keys.steps), keys.steps) ==>
                (err, at) == CurrentAnswer(s, old(Recorded(keys.chunks)), offset, body, declared, maxInFlight, hash)
    {
      recorded := false;
      err, at := GetOffset();
      if err.None? && at != offset {
        err := Some(OffsetConflict);
      } else if err.None? {
        err, recorded := AppendNext(s, index, body, declared);
        at := 0;
        if err.None? { err, at := GetOffset(); }
      }
    }

    /** The append itself, at the index the offset names. */
    method AppendNext(s: UploadSession, index: int, body: Bytes, declared: Sha)
      returns (err: Option<Error>, ghost recorded: bool)
      requires Valid() && keys.session == Some(s) && s.chunkSize > 0
      requires index >= 0 && AtIndex(keys.chunks, s.chunkSize, index)
      modifies keys`chunks, keys`offset, keys`parts, keys`steps
      ensures Valid() && old(keys.steps) <= keys.steps
      ensures Stream() == old(Stream()) + if recorded then body else []
      ensures Recorded(keys.chunks) == old(Recorded(keys.chunks)) + if recorded then |body| else 0
      ensures err.None? ==> recorded
      ensures recorded ==> Takes(s, body, declared, maxInFlight, hash)
      ensures keys.Quiet(old(keys.steps), keys.steps) ==> err == TakesAnswer(s, body, declared, maxInFlight, hash)
    {
      ghost var chunks, parts, counter := keys.chunks, keys.parts, keys.offset;
      err, recorded := AppendChunkForSession(s, index, body, declared);
      if recorded {
        AppendStacks(chunks, parts, counter, s.chunkSize, hash, index, body);
      } else {
        StrayPart(chunks, parts, keys.parts, counter, s.chunkSize, hash, index);
      }
    }

    /** Any sequential run of requests, accepted and rejected: the stream is the recorded
        bodies in order, and after a body shorter than the chunk size none is taken again. */
    method AppendAll(ns: string, requests: seq<Patch>) returns (answers: seq<Option<Error>>, ghost taken: seq<bool>)
      requires Valid()
      modifies keys`chunks, keys`offset, keys`parts, keys`steps
      ensures Valid() && Answered(answers, taken) && |taken| == |requests|
      ensures Stream() == old(Stream()) + Bodies(requests, taken)
      ensures keys.session.Some? ==> ShortIsLast(requests, taken, keys.session.value.chunkSize)
    {
      answers, taken := [], [];
      ghost var before := Stream();
      ghost var size := if keys.session.Some? then keys.session.value.chunkSize else 0;
      for i := 0 to |requests|
        invariant Valid() && Answered(answers, taken) && |taken| == i
        invariant Stream() == before + Bodies(requests[..i], taken)
        invariant keys.session.Some? ==> ShortIsLast(requests[..i], taken, size)
        invariant keys.session.Some? && ShortTaken(requests[..i], taken, size) ==> Off(Recorded(keys.chunks), size)
      {
        var r := requests[i];
        var err, at;
        ghost var recorded, stream := false, Bodies(requests[..i], taken);
        ghost var held := Recorded(keys.chunks);
        err, at, recorded := AppendChunkAtOffset(ns, r.offset, r.body, r.declared);
        if keys.session.Some? { ShortStep(requests, i, taken, size, held, Recorded(keys.chunks), recorded); }
        BodiesSnoc(requests, i, answers, err, taken, recorded);
        Associate(before, stream, if recorded then r.body else []);
        answers, taken := answers + [err], taken + [recorded];
      }
      assert requests[..|requests|] == requests;
    }
  }

  /** Not at the start of a chunk. */
  predicate Off(recorded: nat, size: int) { size > 0 && recorded % size != 0 }

  predicate Short(r: Patch, size: int) { 0 < |r.body| < size }

  ghost predicate ShortTaken(requests: seq<Patch>, taken: seq<bool>, size: int)
    requires |requests| == |taken|
  {
    exists i :: 0 <= i < |taken| && taken[i] && Short(requests[i], size)
  }

  /** Nothing is taken after a short body. */
  ghost predicate ShortIsLast(requests: seq<Patch>, taken: seq<bool>, size: int)
    requires |requests| == |taken|
  {
    forall i, j | 0 <= i < j < |taken| && taken[i] && Short(requests[i], size) :: !taken[j]
  }

  lemma ShortStep(requests: seq<Patch>, i: nat, taken: seq<bool>, size: int, held: nat, held': nat, recorded: bool)
    requires i < |requests| && |taken| == i && ShortIsLast(requests[..i], taken, size)
    requires ShortTaken(requests[..i], taken, size) ==> Off(held, size)
    requires recorded ==> size > 0 && held % size == 0
    requires held' == held + if recorded then |requests[i].body| else 0
    ensures ShortIsLast(requests[..i + 1], taken + [recorded], size)
    ensures ShortTaken(requests[..i + 1], taken + [recorded], size) ==> Off(held', size)
  {
    var longer, all := requests[..i + 1], taken + [recorded];
    if recorded && Short(requests[i], size) { NotMultiple(held, |requests[i].body|, size); }
    if ShortTaken(longer, all, size) && !(recorded && Short(requests[i], size)) {
      var k :| 0 <= k < |all| && all[k] && Short(longer[k], size);
      assert taken[k] && Short(requests[..i][k], size);
    }
    forall a, b | 0 <= a < b < |all| && all[a] && Short(longer[a], size) ensures !all[b] {
      assert taken[a] && Short(requests[..i][a], size);
      if b < i { assert !taken[b]; }
    }
  }

  lemma NotMultiple(a: nat, b: nat, size: int)
    requires 0 < b < size && a % size == 0
    ensures (a + b) % size != 0
  {
    DivMod(a, size);
    DivUnique(a + b, size, a / size, b);
    DivMod(a + b, size);
  }

  lemma Associate(a: Bytes, b: Bytes, c: Bytes)
    ensures (a + b) + c == a + (b + c)
  {
  }

  /** A request answered with success was taken. */
  ghost predicate Answered(answers: seq<Option<Error>>, taken: seq<bool>) {
    |answers| == |taken| && forall i | 0 <= i < |answers| :: answers[i].None? ==> taken[i]
  }

  lemma BodiesSnoc(requests: seq<Patch>, i: nat, answers: seq<Option<Error>>, err: Option<Error>, taken: seq<bool>,
                   recorded: bool)
    requires i < |requests| && |taken| == i && Answered(answers, taken) && (err.None? ==> recorded)
    ensures Answered(answers + [err], taken + [recorded])
    ensures Bodies(requests[..i + 1], taken + [recorded])
         == Bodies(requests[..i], taken) + if recorded then requests[i].body else []
  {
    assert requests[..i + 1][..i] == requests[..i] && (taken + [recorded])[..i] == taken;
  }

  datatype Patch = Patch(offset: int, body: Bytes, declared: Sha)

  /** The bodies of the requests taken, in order. */
  ghost function Bodies(requests: seq<Patch>, taken: seq<bool>): Bytes
    requires |requests| == |taken|
  {
    if requests == [] then []
    else Bodies(requests[..|requests| - 1], taken[..|taken| - 1])
         + if taken[|taken| - 1] then requests[|requests| - 1].body else []
  }
}
