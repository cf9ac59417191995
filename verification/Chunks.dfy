/** The chunks of an upload: the SDK's split (sdk/go/fileupload/upload.go:219-249), the check
    before finalizing (internal/domain/upload.go:435-471) and the merge
    (internal/domain/finalize.go:25-64). */
module Chunks {
  import opened Types
  import opened Sorting

  /** An entry of the chunk list. The sizes and indexes are int64. */
  datatype ChunkInfo = ChunkInfo(index: int, sha: Sha, size: int)

  const MAX_INT64: int := 0x7FFF_FFFF_FFFF_FFFF

  /** The int64 a sum wraps around to. */
  function Wrap64(x: int): int {
    var y := x % 0x1_0000_0000_0000_0000;
    if y > MAX_INT64 then y - 0x1_0000_0000_0000_0000 else y
  }

  /** Go's division truncates toward zero. */
  function TruncDiv(a: int, b: int): int
    requires b > 0
  {
    if a >= 0 then a / b else -(-a / b)
  }

  /** The number of pieces of `chunkSize` that cover `length`. */
  function Pieces(length: nat, chunkSize: int): nat
    requires chunkSize > 0
  {
    (length + chunkSize - 1) / chunkSize
  }

  predicate ByIndex(a: ChunkInfo, b: ChunkInfo) { a.index <= b.index }

  /** Indexes 0, 1, ... in some order, none missing or repeated; every size in range. */
  ghost predicate Contiguous(cs: seq<ChunkInfo>, chunkSize: int) {
    && (forall c | c in cs :: 0 <= c.index < |cs| && 0 < c.size <= chunkSize)
    && (forall i, j | 0 <= i < j < |cs| :: cs[i].index != cs[j].index)
  }

  /** Contiguous, all full but the last, which ends exactly at the length. */
  ghost predicate Tiles(cs: seq<ChunkInfo>, chunkSize: int, length: int) {
    && cs != [] && Contiguous(cs, chunkSize)
    && forall c | c in cs :: c.size == if c.index < |cs| - 1 then chunkSize else length - (|cs| - 1) * chunkSize
  }

  /** What finalize accepts, in terms of the chunk list in any order. */
  ghost predicate Accepts(cs: seq<ChunkInfo>, length: int, chunkSize: int, exact: bool) {
    && length >= 0 && chunkSize > 0
    && if length == 0 then cs == []
       else if exact then Tiles(cs, chunkSize, length) && length + chunkSize - 1 <= MAX_INT64
       else cs != [] && Contiguous(cs, chunkSize)
  }

  ghost predicate InPlace(cs: seq<ChunkInfo>, chunkSize: int) {
    forall i | 0 <= i < |cs| :: cs[i].index == i && 0 < cs[i].size <= chunkSize
  }

  /** Distinct numbers below `n`, `n` of them and in order, are 0, 1, ... */
  lemma {:induction false} SortedIndexes(cs: seq<ChunkInfo>, i: nat)
    requires Sorted(cs, ByIndex) && i < |cs|
    requires (forall c | c in cs :: 0 <= c.index) && forall i, j | 0 <= i < j < |cs| :: cs[i].index != cs[j].index
    ensures cs[i].index >= i
    decreases i
  {
    if i > 0 {
      SortedIndexes(cs, i - 1);
      assert ByIndex(cs[i - 1], cs[i]);
    }
  }

  lemma {:induction false} IndexesBelow(cs: seq<ChunkInfo>, i: nat)
    requires Sorted(cs, ByIndex) && i < |cs|
    requires (forall c | c in cs :: c.index < |cs|) && forall i, j | 0 <= i < j < |cs| :: cs[i].index != cs[j].index
    ensures cs[i].index <= i
    decreases |cs| - i
  {
    assert cs[i] in cs;
    if i < |cs| - 1 {
      IndexesBelow(cs, i + 1);
      assert ByIndex(cs[i], cs[i + 1]);
    }
  }

  /** A list is contiguous exactly when sorting puts chunk `i` in place `i`. */
  lemma ContiguousSorted(cs: seq<ChunkInfo>, sorted: seq<ChunkInfo>, chunkSize: int)
    requires Sorted(sorted, ByIndex) && multiset(sorted) == multiset(cs)
    ensures Contiguous(cs, chunkSize) <==> InPlace(sorted, chunkSize)
  {
    SameMembers(cs, sorted);
    if Contiguous(cs, chunkSize) {
      assert Distinct(cs);
      DistinctPermuted(cs, sorted);
      IndexApart(cs);
      forall i, j | 0 <= i < j < |sorted| ensures sorted[i].index != sorted[j].index {
        assert sorted[i] in cs && sorted[j] in cs;
      }
      forall i | 0 <= i < |sorted| ensures sorted[i].index == i && 0 < sorted[i].size <= chunkSize {
        SortedIndexes(sorted, i);
        IndexesBelow(sorted, i);
        assert sorted[i] in cs;
      }
    }
    if InPlace(sorted, chunkSize) {
      assert Distinct(sorted);
      DistinctPermuted(sorted, cs);
      forall c | c in cs ensures 0 <= c.index < |cs| && 0 < c.size <= chunkSize { assert c in sorted; }
      forall i, j | 0 <= i < j < |cs| ensures cs[i].index != cs[j].index {
        assert cs[i] in sorted && cs[j] in sorted && cs[i] != cs[j];
      }
    }
  }

  lemma IndexApart(cs: seq<ChunkInfo>)
    requires forall i, j | 0 <= i < j < |cs| :: cs[i].index != cs[j].index
    ensures forall a, b | a in cs && b in cs && a != b :: a.index != b.index
  {
  }

  /** The sizes the second loop expects. */
  ghost predicate ExactSizes(sorted: seq<ChunkInfo>, chunkSize: int, length: int) {
    forall i | 0 <= i < |sorted| ::
      sorted[i].size == if i == |sorted| - 1 then length - i * chunkSize else chunkSize
  }

  lemma TilesSorted(cs: seq<ChunkInfo>, sorted: seq<ChunkInfo>, chunkSize: int, length: int)
    requires Sorted(sorted, ByIndex) && multiset(sorted) == multiset(cs)
    ensures Tiles(cs, chunkSize, length) <==>
              cs != [] && InPlace(sorted, chunkSize) && ExactSizes(sorted, chunkSize, length)
  {
    ContiguousSorted(cs, sorted, chunkSize);
    SameMembers(cs, sorted);
    if cs != [] && InPlace(sorted, chunkSize) {
      if ExactSizes(sorted, chunkSize, length) {
        forall c | c in cs ensures c.size == if c.index < |cs| - 1 then chunkSize else length - (|cs| - 1) * chunkSize {
          assert c in sorted;
        }
      }
      if Tiles(cs, chunkSize, length) {
        forall i | 0 <= i < |sorted|
          ensures sorted[i].size == if i == |sorted| - 1 then length - i * chunkSize else chunkSize
        {
          assert sorted[i] in cs;
        }
      }
    }
  }

  lemma MulStep(x: int, y: int, b: int)
    requires x < y && b > 0
    ensures x * b + b <= y * b
  {
    var d := y - x - 1;
    assert d * b >= 0;
    assert y * b == (x + 1 + d) * b == x * b + b + d * b;
  }

  lemma DivMod(a: int, b: int)
    requires b > 0
    ensures a == (a / b) * b + a % b && 0 <= a % b < b
  {
  }

  lemma DivUnique(a: int, b: int, q: int, r: int)
    requires b > 0 && a == q * b + r && 0 <= r < b
    ensures a / b == q
  {
    DivMod(a, b);
    if a / b < q { MulStep(a / b, q, b); }
    if a / b > q { MulStep(q, a / b, b); }
  }

  /** The ceiling division, and what int64 makes of it. */
  lemma CountsMatch(chunkSize: int, length: int)
    requires 0 < chunkSize <= MAX_INT64 && 0 < length <= MAX_INT64
    ensures length + chunkSize - 1 <= MAX_INT64 ==>
              TruncDiv(Wrap64(length + chunkSize - 1), chunkSize) == Pieces(length, chunkSize)
    ensures length + chunkSize - 1 > MAX_INT64 ==> TruncDiv(Wrap64(length + chunkSize - 1), chunkSize) <= 0
  {
  }

  lemma LastPiece(n: nat, chunkSize: int, length: nat)
    requires chunkSize > 0 && n > 0 && 0 < length - (n - 1) * chunkSize <= chunkSize
    ensures Pieces(length, chunkSize) == n
  {
    var rest := length - (n - 1) * chunkSize - 1;
    assert (n - 1) * chunkSize == n * chunkSize - chunkSize;
    DivUnique(length + chunkSize - 1, chunkSize, n, rest);
  }

  /** The check before finalizing. It sorts the caller's slice and accepts exactly the lists
      `Accepts` describes; near the top of int64 the rounded-up sum wraps and nothing passes. */
  method ValidateUploadedChunks(chunks: array<ChunkInfo>, uploadLength: int, chunkSize: int, enforceLength: bool)
    returns (err: Option<Error>)
    requires uploadLength <= MAX_INT64 && chunkSize <= MAX_INT64
    modifies chunks
    ensures multiset(chunks[..]) == multiset(old(chunks[..]))
    ensures err.None? <==> Accepts(old(chunks[..]), uploadLength, chunkSize, enforceLength)
    ensures err == if uploadLength < 0 || chunkSize <= 0 then Some(InvalidArgument)
                   else if err.Some? then Some(UploadIncomplete) else None
  {
    if uploadLength < 0 || chunkSize <= 0 { return Some(InvalidArgument); }
    if uploadLength == 0 { return if chunks.Length != 0 then Some(UploadIncomplete) else None; }
    if chunks.Length == 0 { return Some(UploadIncomplete); }
    ghost var given := chunks[..];
    SortByIndex(chunks);
    ghost var sorted := chunks[..];
    ContiguousSorted(given, sorted, chunkSize);
    TilesSorted(given, sorted, chunkSize, uploadLength);
    for index := 0 to chunks.Length
      invariant chunks[..] == sorted
      invariant forall i | 0 <= i < index :: sorted[i].index == i && 0 < sorted[i].size <= chunkSize
    {
      if chunks[index].index != index || chunks[index].size <= 0 || chunks[index].size > chunkSize {
        return Some(UploadIncomplete);
      }
    }
    if !enforceLength { return None; }
    err := CheckSizes(chunks, uploadLength, chunkSize);
  }

  method SortByIndex(chunks: array<ChunkInfo>)
    modifies chunks
    ensures Sorted(chunks[..], ByIndex) && multiset(chunks[..]) == multiset(old(chunks[..]))
  {
    var sorted := Sort(chunks[..], ByIndex);
    SameMembers(chunks[..], sorted);
    forall i | 0 <= i < chunks.Length { chunks[i] := sorted[i]; }
    assert chunks[..] == sorted;
  }

  /** The part that enforces the length. */
  method CheckSizes(chunks: array<ChunkInfo>, uploadLength: int, chunkSize: int) returns (err: Option<Error>)
    requires 0 < uploadLength <= MAX_INT64 && 0 < chunkSize <= MAX_INT64 && chunks.Length > 0
    requires InPlace(chunks[..], chunkSize)
    ensures err == None || err == Some(UploadIncomplete)
    ensures err.None? <==> ExactSizes(chunks[..], chunkSize, uploadLength) && uploadLength + chunkSize - 1 <= MAX_INT64
  {
    ghost var sorted := chunks[..];
    CountsMatch(chunkSize, uploadLength);
    if ExactSizes(sorted, chunkSize, uploadLength) {
      var last := |sorted| - 1;
      assert sorted[last].size == uploadLength - last * chunkSize;
      LastPiece(|sorted|, chunkSize, uploadLength);
    }
    var expectedCount := TruncDiv(Wrap64(uploadLength + chunkSize - 1), chunkSize);
    if chunks.Length != expectedCount { return Some(UploadIncomplete); }
    for index := 0 to chunks.Length
      invariant forall i | 0 <= i < index ::
                  sorted[i].size == if i == |sorted| - 1 then uploadLength - i * chunkSize else chunkSize
    {
      var expectedSize := if index == expectedCount - 1 then uploadLength - index * chunkSize else chunkSize;
      if chunks[index].size != expectedSize { return Some(UploadIncomplete); }
    }
    err := None;
  }

  // ---------- parts ----------

  type Parts = map<int, Bytes>

  /** The first `n` parts, one after the other. */
  function Merged(parts: Parts, n: nat): Bytes {
    if n == 0 then [] else Merged(parts, n - 1) + if n - 1 in parts then parts[n - 1] else []
  }

  lemma {:induction false} MergedSame(p: Parts, q: Parts, n: nat)
    requires forall i | 0 <= i < n :: (i in p <==> i in q) && (i in p ==> p[i] == q[i])
    ensures Merged(p, n) == Merged(q, n)
    decreases n
  {
    if n > 0 { MergedSame(p, q, n - 1); }
  }

  /** Full parts add up. */
  lemma {:induction false} MergedLength(parts: Parts, n: nat, chunkSize: nat)
    requires forall i | 0 <= i < n :: i in parts && |parts[i]| == chunkSize
    ensures |Merged(parts, n)| == n * chunkSize
    decreases n
  {
    if n > 0 { MergedLength(parts, n - 1, chunkSize); }
  }

  /** A list that tiles a length, over parts of the sizes it names, merges to that length. */
  lemma TilesLength(cs: seq<ChunkInfo>, parts: Parts, chunkSize: int, length: int)
    requires Tiles(cs, chunkSize, length) && chunkSize > 0
    requires forall c | c in cs :: c.index in parts && |parts[c.index]| == c.size
    ensures |Merged(parts, |cs|)| == length
  {
    var n := |cs|;
    forall i | 0 <= i < n
      ensures i in parts && |parts[i]| == if i < n - 1 then chunkSize else length - (n - 1) * chunkSize
    {
      var c := ChunkAt(cs, chunkSize, i);
    }
    MergedLength(parts, n - 1, chunkSize);
  }

  lemma ChunkAt(cs: seq<ChunkInfo>, chunkSize: int, i: nat) returns (c: ChunkInfo)
    requires Contiguous(cs, chunkSize) && i < |cs|
    ensures c in cs && c.index == i
  {
    var sorted := SortedCopy(cs);
    ContiguousSorted(cs, sorted, chunkSize);
    SameMembers(cs, sorted);
    c := sorted[i];
  }

  lemma {:induction false} SortedCopy(cs: seq<ChunkInfo>) returns (sorted: seq<ChunkInfo>)
    ensures Sorted(sorted, ByIndex) && multiset(sorted) == multiset(cs)
    decreases |cs|
  {
    if cs == [] {
      sorted := [];
    } else {
      var init := SortedCopy(cs[..|cs| - 1]);
      InsertSorted(init, cs[|cs| - 1], ByIndex);
      assert cs == cs[..|cs| - 1] + [cs[|cs| - 1]];
      sorted := Insert(init, cs[|cs| - 1], ByIndex);
    }
  }

  // ---------- the client's split ----------

  function SliceEnd(data: Bytes, chunkSize: int, i: nat): nat
    requires chunkSize > 0
  {
    if (i + 1) * chunkSize > |data| then |data| else (i + 1) * chunkSize
  }

  /** The `i`-th piece the client sends. */
  function Slice(data: Bytes, chunkSize: int, i: nat): Bytes
    requires chunkSize > 0 && i < Pieces(|data|, chunkSize)
  {
    PieceBounds(|data|, chunkSize, i);
    data[i * chunkSize..SliceEnd(data, chunkSize, i)]
  }

  lemma PieceBounds(length: nat, chunkSize: int, i: nat)
    requires chunkSize > 0 && i < Pieces(length, chunkSize)
    ensures 0 <= i * chunkSize < length
    ensures (i + 1) * chunkSize > length ==> i + 1 == Pieces(length, chunkSize)
    ensures i + 1 < Pieces(length, chunkSize) ==> (i + 1) * chunkSize < length
    ensures i + 1 == Pieces(length, chunkSize) ==> length - i * chunkSize <= chunkSize
  {
    var n := Pieces(length, chunkSize);
    DivMod(length + chunkSize - 1, chunkSize);
    assert n * chunkSize == (n - 1) * chunkSize + chunkSize;
    assert (i + 1) * chunkSize == i * chunkSize + chunkSize;
    assert i * chunkSize >= 0;
    if i + 1 < n { MulStep(i, n - 1, chunkSize); }
  }

  /** The client's loop. */
  method SplitBytes(data: Bytes, chunkSize: int) returns (slices: seq<Bytes>)
    requires chunkSize > 0
    ensures |slices| == Pieces(|data|, chunkSize)
    ensures forall i | 0 <= i < |slices| :: slices[i] == Slice(data, chunkSize, i)
  {
    var total := |data|;
    var chunkCount := total / chunkSize;
    if total % chunkSize != 0 { chunkCount := chunkCount + 1; }
    RoundUp(total, chunkSize);
    slices := [];
    for i := 0 to chunkCount
      invariant |slices| == i && forall j | 0 <= j < i :: slices[j] == Slice(data, chunkSize, j)
    {
      PieceBounds(total, chunkSize, i);
      var start := i * chunkSize;
      var end := start + chunkSize;
      if end > total { end := total; }
      slices := slices + [data[start..end]];
    }
  }

  lemma RoundUp(total: nat, chunkSize: int)
    requires chunkSize > 0
    ensures Pieces(total, chunkSize) == total / chunkSize + if total % chunkSize != 0 then 1 else 0
  {
    var q, r := total / chunkSize, total % chunkSize;
    DivMod(total, chunkSize);
    if r == 0 {
      DivUnique(total + chunkSize - 1, chunkSize, q, chunkSize - 1);
    } else {
      assert (q + 1) * chunkSize == q * chunkSize + chunkSize;
      DivUnique(total + chunkSize - 1, chunkSize, q + 1, r - 1);
    }
  }

  /** The pieces, filed by index. */
  function SplitParts(data: Bytes, chunkSize: int): Parts
    requires chunkSize > 0
  {
    map i: int | 0 <= i < Pieces(|data|, chunkSize) :: Slice(data, chunkSize, i)
  }

  /** How a server lists the pieces. */
  function SplitInfo(data: Bytes, chunkSize: int, hash: Bytes -> Sha, i: nat): ChunkInfo
    requires chunkSize > 0 && i < Pieces(|data|, chunkSize)
  {
    ChunkInfo(i, hash(Slice(data, chunkSize, i)), |Slice(data, chunkSize, i)|)
  }

  lemma {:induction false} MergedSplit(data: Bytes, chunkSize: int, n: nat)
    requires chunkSize > 0 && n <= Pieces(|data|, chunkSize)
    ensures Merged(SplitParts(data, chunkSize), n) == if n == 0 then [] else data[..SliceEnd(data, chunkSize, n - 1)]
    decreases n
  {
    if n > 0 {
      var parts, start, end := SplitParts(data, chunkSize), (n - 1) * chunkSize, SliceEnd(data, chunkSize, n - 1);
      MergedSplit(data, chunkSize, n - 1);
      PieceBounds(|data|, chunkSize, n - 1);
      if n > 1 { PieceBounds(|data|, chunkSize, n - 2); }
      assert Merged(parts, n - 1) == data[..start];
      assert n - 1 in parts && parts[n - 1] == data[start..end];
      assert data[..end] == data[..start] + data[start..end];
    }
  }

  /** The list a server keeps of the pieces, in index order. */
  ghost function SplitList(data: Bytes, chunkSize: int, hash: Bytes -> Sha): seq<ChunkInfo>
    requires chunkSize > 0
  {
    seq(Pieces(|data|, chunkSize), i requires 0 <= i < Pieces(|data|, chunkSize) => SplitInfo(data, chunkSize, hash, i))
  }

  lemma SplitInPlace(data: Bytes, chunkSize: int, hash: Bytes -> Sha)
    requires chunkSize > 0
    ensures var listed := SplitList(data, chunkSize, hash);
            Sorted(listed, ByIndex) && InPlace(listed, chunkSize) && ExactSizes(listed, chunkSize, |data|)
  {
    var listed := SplitList(data, chunkSize, hash);
    forall i | 0 <= i < |listed|
      ensures listed[i].index == i && 0 < listed[i].size <= chunkSize
      ensures listed[i].size == if i == |listed| - 1 then |data| - i * chunkSize else chunkSize
    {
      PieceBounds(|data|, chunkSize, i);
      assert (i + 1) * chunkSize == i * chunkSize + chunkSize;
    }
  }

  lemma MergedAll(data: Bytes, chunkSize: int)
    requires chunkSize > 0
    ensures Pieces(|data|, chunkSize) == 0 <==> data == []
    ensures Merged(SplitParts(data, chunkSize), Pieces(|data|, chunkSize)) == data
  {
    var n := Pieces(|data|, chunkSize);
    RoundUp(|data|, chunkSize);
    DivMod(|data|, chunkSize);
    MergedSplit(data, chunkSize, n);
    if n > 0 {
      PieceBounds(|data|, chunkSize, n - 1);
      assert n * chunkSize == (n - 1) * chunkSize + chunkSize;
      assert data[..|data|] == data;
    }
  }

  /** Splitting and merging undo each other: whatever order the pieces arrive and are listed
      in, the list is accepted and the merge is the data. */
  lemma SplitThenMerge(data: Bytes, chunkSize: int, cs: seq<ChunkInfo>, hash: Bytes -> Sha)
    requires chunkSize > 0 && |data| + chunkSize - 1 <= MAX_INT64
    requires multiset(cs) == multiset(SplitList(data, chunkSize, hash))
    ensures Accepts(cs, |data|, chunkSize, true)
    ensures Merged(SplitParts(data, chunkSize), |cs|) == data
  {
    var listed := SplitList(data, chunkSize, hash);
    SameMembers(cs, listed);
    MergedAll(data, chunkSize);
    if data != [] {
      SplitInPlace(data, chunkSize, hash);
      TilesSorted(cs, listed, chunkSize, |data|);
    }
  }
}
