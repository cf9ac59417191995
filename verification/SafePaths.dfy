/** What the manifest's path filter keeps out, and what readable paths are made of
    (internal/domain/upload.go:670-688, internal/domain/layout.go:29-33). */
module SafePaths {
  import opened Types
  import opened Forest
  import opened Paths
  import opened DirTrees
  import opened Submissions

  // ---------- splitting at slashes ----------

  /** strings.Split by a slash. */
  function Split(p: string): seq<string>
    decreases |p|
  {
    var i := LastSlash(p);
    if i < 0 then [p] else Split(p[..i]) + [p[i + 1..]]
  }

  function Join(parts: seq<string>): string {
    if parts == [] then ""
    else if |parts| == 1 then parts[0]
    else Join(parts[..|parts| - 1]) + "/" + parts[|parts| - 1]
  }

  ghost predicate NoSlash(part: string) { '/' !in part }

  /** The parts are the pieces between slashes. */
  lemma {:induction false} JoinSplit(p: string)
    ensures Split(p) != [] && Join(Split(p)) == p && forall part | part in Split(p) :: NoSlash(part)
    decreases |p|
  {
    var i := LastSlash(p);
    if i >= 0 {
      JoinSplit(p[..i]);
      JoinSnoc(Split(p[..i]), p[i + 1..]);
      CutAt(p, i);
    }
  }

  lemma JoinSnoc(parts: seq<string>, part: string)
    requires parts != []
    ensures Join(parts + [part]) == Join(parts) + "/" + part
  {
    assert (parts + [part])[..|parts|] == parts;
  }

  lemma CutAt(p: string, i: nat)
    requires i < |p| && p[i] == '/'
    ensures p == p[..i] + "/" + p[i + 1..]
  {
  }

  lemma Halves(a: string, b: string)
    ensures var p := a + "/" + b;
            && |p| == |a| + 1 + |b| && p[|a|] == '/' && p[..|a|] == a && p[|a| + 1..] == b
            && forall k | |a| < k < |p| :: p[k] == b[k - |a| - 1]
  {
  }

  lemma LastSlashIs(p: string, i: nat)
    requires i < |p| && p[i] == '/' && forall k | i < k < |p| :: p[k] != '/'
    ensures LastSlash(p) == i
  {
  }

  lemma NoLastSlash(p: string)
    requires NoSlash(p)
    ensures LastSlash(p) == -1 && Split(p) == [p]
  {
  }

  lemma SplitSnoc(a: string, b: string)
    requires NoSlash(b)
    ensures Split(a + "/" + b) == Split(a) + [b]
  {
    var p := a + "/" + b;
    Halves(a, b);
    forall k | |a| < k < |p| ensures p[k] != '/' { assert b[k - |a| - 1] in b; }
    LastSlashIs(p, |a|);
  }

  lemma {:induction false} SplitJoin(parts: seq<string>)
    requires parts != [] && forall part | part in parts :: NoSlash(part)
    ensures Split(Join(parts)) == parts
    decreases |parts|
  {
    var n := |parts| - 1;
    assert parts[n] in parts;
    if n == 0 {
      NoLastSlash(parts[0]);
    } else {
      SplitSnoc(Join(parts[..n]), parts[n]);
      SplitJoin(parts[..n]);
    }
  }

  /** Splitting a path that goes on splits both halves. */
  lemma {:induction false} SplitBoth(a: string, b: string)
    ensures Split(a + "/" + b) == Split(a) + Split(b)
    decreases |b|
  {
    var i := LastSlash(b);
    if i < 0 {
      SplitSnoc(a, b);
    } else {
      var init, last := b[..i], b[i + 1..];
      SplitBoth(a, init);
      SplitOnce(b, i);
      SplitGlued(a, init, last, b, i);
      Associated(Split(a), Split(init), last);
    }
  }

  lemma SplitOnce(p: string, i: nat)
    requires LastSlash(p) == i
    ensures Split(p) == Split(p[..i]) + [p[i + 1..]]
  {
  }

  lemma SplitGlued(a: string, init: string, last: string, b: string, i: nat)
    requires i < |b| && b[i] == '/' && init == b[..i] && last == b[i + 1..] && NoSlash(last)
    ensures Split(a + "/" + b) == Split(a + "/" + init) + [last]
  {
    Regroup(a, init, last, b, i);
    SplitSnoc(a + "/" + init, last);
  }

  lemma Associated(a: seq<string>, b: seq<string>, last: string)
    ensures (a + b) + [last] == a + (b + [last])
  {
  }

  lemma Regroup(a: string, init: string, last: string, b: string, i: nat)
    requires i < |b| && b[i] == '/' && init == b[..i] && last == b[i + 1..]
    ensures a + "/" + b == (a + "/" + init) + "/" + last
  {
    assert b == init + "/" + last;
  }

  // ---------- resolving a path ----------

  /** Where a path leads from a directory, as names from there; nowhere if it leaves it. */
  function Resolve(parts: seq<string>): Option<seq<string>> {
    if parts == [] then Some([])
    else
      match Resolve(parts[..|parts| - 1])
      case None => None
      case Some(at) =>
        var part := parts[|parts| - 1];
        if part == "" || part == "." then Some(at)
        else if part != ".." then Some(at + [part])
        else if at == [] then None else Some(at[..|at| - 1])
  }

  predicate Plain(part: string) { part != "" && part != "." && part != ".." }

  lemma {:induction false} ResolveShortens(parts: seq<string>)
    ensures Resolve(parts).Some? ==>
              && |Resolve(parts).value| <= |parts|
              && (|Resolve(parts).value| == |parts| ==> forall part | part in parts :: Plain(part))
    decreases |parts|
  {
    if parts != [] {
      var n := |parts| - 1;
      ResolveShortens(parts[..n]);
      assert parts == parts[..n] + [parts[n]];
    }
  }

  lemma {:induction false} ResolvePlain(parts: seq<string>)
    requires forall part | part in parts :: Plain(part)
    ensures Resolve(parts) == Some(parts)
    decreases |parts|
  {
    if parts != [] {
      var n := |parts| - 1;
      assert parts[n] in parts && parts == parts[..n] + [parts[n]];
      ResolvePlain(parts[..n]);
    }
  }

  /** A piece of a path is one of its parts. */
  lemma {:induction false} SegmentIsPart(p: string, i: nat, j: nat)
    requires i <= j <= |p| && Segment(p, i, j)
    ensures p[i..j] in Split(p)
    decreases |p|
  {
    var k := LastSlash(p);
    if k < 0 {
      WholePiece(p, i, j);
    } else if j <= k {
      assert p[..k][i..j] == p[i..j];
      SegmentIsPart(p[..k], i, j);
    } else {
      LastPiece(p, i, j, k);
    }
  }

  /** Without a slash there is one piece, and one after the last slash. */
  lemma WholePiece(p: string, i: nat, j: nat)
    requires i <= j <= |p| && Segment(p, i, j) && forall k | 0 <= k < |p| :: p[k] != '/'
    ensures p[i..j] == p
  {
  }

  lemma LastPiece(p: string, i: nat, j: nat, k: nat)
    requires k < j && i <= j <= |p| && k < |p| && Segment(p, i, j)
    requires p[k] == '/' && forall n | k < n < |p| :: p[n] != '/'
    ensures p[i..j] == p[k + 1..]
  {
  }

  lemma {:induction false} PartIsSegment(p: string, part: string) returns (i: nat, j: nat)
    requires part in Split(p)
    ensures i <= j <= |p| && Segment(p, i, j) && p[i..j] == part
    decreases |p|
  {
    var k := LastSlash(p);
    if k < 0 {
      i, j := 0, |p|;
    } else if part == p[k + 1..] {
      i, j := k + 1, |p|;
    } else {
      i, j := PartIsSegment(p[..k], part);
      HeadPiece(p, k, i, j);
    }
  }

  lemma HeadPiece(p: string, k: nat, i: nat, j: nat)
    requires i <= j <= k < |p| && p[k] == '/' && Segment(p[..k], i, j)
    ensures Segment(p, i, j) && p[..k][i..j] == p[i..j]
  {
    var q := p[..k];
    forall n | 0 <= n < j - i ensures q[i..j][n] == p[i..j][n] { assert q[i + n] == p[i + n]; }
    assert q[i..j] == p[i..j] && (i > 0 ==> q[i - 1] == p[i - 1]) && (j < k ==> q[j] == p[j]);
  }

  /** The filter accepts exactly the paths that hold no backslash or zero byte and resolve to
      themselves: no way up, no detour, no empty name. */
  lemma SafePathIff(p: string)
    ensures SafePath(p) <==> '\\' !in p && '\0' !in p && Resolve(Split(p)) == Some(Split(p))
  {
    JoinSplit(p);
    if SafePath(p) {
      forall part | part in Split(p) ensures Plain(part) {
        var i, j := PartIsSegment(p, part);
      }
      ResolvePlain(Split(p));
    }
    if Resolve(Split(p)) == Some(Split(p)) {
      ResolveShortens(Split(p));
      forall i, j | 0 <= i <= j <= |p| && Segment(p, i, j)
        ensures p[i..j] !in {"", ".", ".."}
      {
        SegmentIsPart(p, i, j);
      }
      EmptyPiece(p);
    }
  }

  /** No path and a path that starts with a slash have an empty piece in front. */
  lemma EmptyPiece(p: string)
    ensures (p == "" || p[0] == '/') ==> Segment(p, 0, 0) && p[0..0] == ""
  {
  }

  /** In particular none with such a segment anywhere. */
  lemma NoDetour(a: string, part: string, b: string)
    requires part in {"", ".", ".."} && (a == "" || a[|a| - 1] == '/') && (b == "" || b[0] == '/')
    ensures !SafePath(a + part + b)
  {
    var p := a + part + b;
    assert p[|a|..|a| + |part|] == part && Segment(p, |a|, |a| + |part|);
  }

  /** The manifests a submission accepts. */
  lemma ValidMeans(m: Files, items: seq<Item>, ns: string)
    ensures DirTrees.Valid(m, items, ns) <==>
            && |items| <= 10000
            && (forall i | 0 <= i < |items| :: Acceptable(m, items[i], ns))
            && (forall i, j | 0 <= i < j < |items| :: items[i].path != items[j].path && items[i].id != items[j].id)
  {
    forall i | 0 <= i < |items|
      ensures ItemOk(m, items[i], ns) <==> Acceptable(m, items[i], ns)
    {
      SafePathIff(items[i].path);
    }
  }

  /** A path that stays inside its directory as it stands, for an active file of the namespace. */
  ghost predicate Acceptable(m: Files, e: Item, ns: string) {
    && '\\' !in e.path && '\0' !in e.path && Resolve(Split(e.path)) == Some(Split(e.path))
    && e.id in m && m[e.id].deletedAt.None? && !m[e.id].isDir && m[e.id].ns == ns
  }

  // ---------- readable paths ----------

  function EachSafe(parts: seq<string>, safe: string -> string): (names: seq<string>)
    ensures |names| == |parts| && forall i | 0 <= i < |parts| :: names[i] == safe(parts[i])
  {
    seq(|parts|, i requires 0 <= i < |parts| => safe(parts[i]))
  }

  lemma {:induction false} SafeRelativeParts(p: string, safe: string -> string)
    requires forall x :: NoSlash(safe(x))
    ensures Split(SafeRelative(p, safe)) == EachSafe(Split(p), safe)
    decreases |p|
  {
    var i := LastSlash(p);
    if i < 0 {
      NoLastSlash(safe(p));
      assert Split(p) == [p];
    } else {
      SafeRelativeParts(p[..i], safe);
      SplitOnce(p, i);
      EachSnoc(Split(p[..i]), p[i + 1..], safe);
      SplitSnoc(SafeRelative(p[..i], safe), safe(p[i + 1..]));
    }
  }

  lemma EachSnoc(parts: seq<string>, part: string, safe: string -> string)
    ensures EachSafe(parts + [part], safe) == EachSafe(parts, safe) + [safe(part)]
  {
  }

  /** A readable path is made of the namespace, the name of the submission and the item's path,
      each name through the filter. */
  lemma ReadableParts(ns: string, name: string, path: string, safe: string -> string)
    requires forall x :: NoSlash(safe(x))
    ensures Split(ReadablePath(ns, name, path, safe)) == Split(ns) + [safe(name)] + EachSafe(Split(path), safe)
  {
    var rest := SafeRelative(path, safe);
    SafeRelativeParts(path, safe);
    SplitSnoc(ns, safe(name));
    SplitBoth(ns + "/" + safe(name), rest);
    assert ReadablePath(ns, name, path, safe) == (ns + "/" + safe(name)) + "/" + rest;
  }

  /** Two submissions of a namespace share a readable path exactly when their filtered names and
      the filtered parts of their items' paths are the same. */
  lemma ReadableSharedIff(ns: string, name: string, path: string, name': string, path': string, safe: string -> string)
    requires forall x :: NoSlash(safe(x))
    ensures ReadablePath(ns, name, path, safe) == ReadablePath(ns, name', path', safe) <==>
            safe(name) == safe(name') && EachSafe(Split(path), safe) == EachSafe(Split(path'), safe)
  {
    ReadableParts(ns, name, path, safe);
    ReadableParts(ns, name', path', safe);
    var n, a, b := |Split(ns)|, EachSafe(Split(path), safe), EachSafe(Split(path'), safe);
    var p, q := Split(ns) + [safe(name)] + a, Split(ns) + [safe(name')] + b;
    assert p[n] == safe(name) && q[n] == safe(name') && p[n + 1..] == a && q[n + 1..] == b;
    JoinSplit(ReadablePath(ns, name, path, safe));
    JoinSplit(ReadablePath(ns, name', path', safe));
  }
}
