/** Copying a directory (internal/domain/batch.go:256-306): rows are inserted into the very
    table whose children are being listed. */
module CopyTables {
  import opened Types
  import opened Forest
  import opened Refs
  import opened Tree
  import opened TrashTables

  /** The row inserted for a copy; a directory's row carries no hash and no size. */
  function CopyOf(f: File, parent: Option<Id>, ns: string): File {
    if f.isDir then File(None, f.name, f.path, 0, ns, true, parent, None)
    else File(f.sha, f.name, f.path, f.size, ns, false, parent, None)
  }

  /** `g` is an active copy of `f` for a namespace: the name, the path and the kind are the same,
      and so are a file's hash and size; a directory has neither. */
  ghost predicate IsCopy(f: File, g: File, parent: Option<Id>, ns: string) {
    && g.name == f.name && g.path == f.path && g.isDir == f.isDir
    && g.ns == ns && g.parent == parent && g.deletedAt.None?
    && g.size == (if f.isDir then 0 else f.size) && g.sha == (if f.isDir then None else f.sha)
  }

  /** `m'` is `m` and rows numbered from `next`. */
  ghost predicate Extended(m: Files, next: Id, m': Files) {
    && (forall x | x in m :: x in m' && m'[x] == m[x])
    && (forall x | x in m' && x !in m :: x >= next)
  }

  /** `m'` is `m` and new rows, numbered from `next`, each under `dst` or another new one. */
  ghost predicate Grown(m: Files, next: Id, dst: Id, m': Files) {
    && (forall x | x in m :: x in m' && m'[x] == m[x])
    && (forall x | x in m' && x !in m :: x >= next && Active(m'[x]) && m'[x].parent.Some?
                                          && (m'[x].parent.value == dst || m'[x].parent.value !in m))
  }

  /** The chains of the old rows are what they were. */
  lemma {:induction false} OldChain(m: Files, next: Id, m': Files, y: Id, n: nat)
    requires Extended(m, next, m') && IdsBelow(m, next) && y in m
    ensures Up(Live(m'), y, n) == Up(Live(m), y, n)
    decreases n
  {
    if n > 0 && Active(m[y]) && m[y].parent.Some? {
      var p := m[y].parent.value;
      if p in m { OldChain(m, next, m', p, n - 1); } else { assert p !in m'; }
    }
  }

  /** A new row's chain passes `dst` before it reaches an old row. */
  lemma {:induction false} NewChain(m: Files, next: Id, dst: Id, m': Files, y: Id, n: nat, r: Id)
    requires Grown(m, next, dst, m') && IdsBelow(m, next) && dst in m
    requires Up(Live(m'), y, n) == Some(r) && r in m && y !in m
    ensures Under(Live(m), r, dst)
    decreases n
  {
    if n > 0 {
      var p := m'[y].parent.value;
      if p == dst {
        OldChain(m, next, m', dst, n - 1);
      } else {
        UpTop(Live(m'), p, n - 1, r);
        NewChain(m, next, dst, m', p, n - 1, r);
      }
    }
  }

  /** Only the subtrees around `dst` have grown. */
  lemma GrownElsewhere(m: Files, next: Id, dst: Id, m': Files, r: Id)
    requires Grown(m, next, dst, m') && IdsBelow(m, next) && dst in m && r in m
    requires !Under(Live(m), r, dst)
    ensures Subtree(Live(m'), r) == Subtree(Live(m), r)
  {
    forall y | y in Subtree(Live(m'), r) ensures y in Subtree(Live(m), r) {
      var n: nat :| Up(Live(m'), y, n) == Some(r);
      if y in m {
        OldChain(m, next, m', y, n);
      } else {
        NewChain(m, next, dst, m', y, n, r);
      }
    }
    forall y | y in Subtree(Live(m), r) ensures y in Subtree(Live(m'), r) {
      UnderMono(Live(m'), Live(m), r, y);
    }
  }

  lemma ExtendedUnder(m: Files, next: Id, m': Files, r: Id, x: Id)
    requires Extended(m, next, m') && IdsBelow(m, next) && x in m && r in m
    ensures Under(Live(m'), r, x) <==> Under(Live(m), r, x)
  {
    forall n: nat ensures Up(Live(m'), x, n) == Up(Live(m), x, n) { OldChain(m, next, m', x, n); }
    if Under(Live(m'), r, x) { var n: nat :| Up(Live(m'), x, n) == Some(r); assert Up(Live(m), x, n) == Some(r); }
    if Under(Live(m), r, x) { var n: nat :| Up(Live(m), x, n) == Some(r); assert Up(Live(m'), x, n) == Some(r); }
  }

  lemma GrownByOne(m: Files, next: Id, dst: Id, f: File)
    requires IdsBelow(m, next) && Active(f) && f.parent == Some(dst)
    ensures Grown(m, next, dst, m[next := f])
  {
  }

  lemma GrownThen(m: Files, next: Id, dst: Id, m1: Files, next1: Id, at: Id, m2: Files)
    requires Grown(m, next, dst, m1) && Grown(m1, next1, at, m2) && next <= next1
    requires at == dst || (at in m1 && at !in m)
    ensures Grown(m, next, dst, m2)
  {
  }

  /** A child's subtree is untouched by what has been copied next to `dst`, and `dst` is
      not in it. */
  lemma ChildUntouched(m: Files, next: Id, src: Id, dst: Id, m': Files, c: Id)
    requires WellFormed(m) && IdsBelow(m, next) && Grown(m, next, dst, m') && dst in m
    requires src in Live(m) && c in Live(m) && m[c].parent == Some(src) && !Under(Live(m), src, dst)
    ensures Subtree(Live(m'), c) == Subtree(Live(m), c) && !Under(Live(m), c, dst)
    ensures |Subtree(Live(m), c)| < |Subtree(Live(m), src)|
  {
    WellFormedCut(m, Live(m));
    ChildSubtreeSmaller(Live(m), src, c);
    SmallerSet(Subtree(Live(m), c), Subtree(Live(m), src));
    UnderStep(Live(m), src, src);
    UnderStep(Live(m), src, c);
    if Under(Live(m), c, dst) { UnderTransitive(Live(m), src, c, dst); }
    GrownElsewhere(m, next, dst, m', c);
  }

  /** `m'` is `m` and new rows, numbered from `next`, each at the target or under another one. */
  ghost predicate Beside(m: Files, next: Id, target: Option<Id>, m': Files) {
    && Extended(m, next, m')
    && forall x | x in m' && x !in m ::
         Active(m'[x]) && (m'[x].parent == target || (m'[x].parent.Some? && m'[x].parent.value !in m))
  }

  lemma BesideThen(m: Files, next: Id, target: Option<Id>, m1: Files, next1: Id, m2: Files)
    requires Beside(m, next, target, m1) && Beside(m1, next1, target, m2) && next <= next1
    ensures Beside(m, next, target, m2)
  {
  }

  /** At the top of the namespace a new row has no old ancestor. */
  lemma {:induction false} NewTopChain(m: Files, next: Id, m': Files, y: Id, n: nat, r: Id)
    requires Beside(m, next, None, m') && Up(Live(m'), y, n) == Some(r) && y !in m
    ensures r !in m
    decreases n
  {
    if n > 0 {
      UpTop(Live(m'), m'[y].parent.value, n - 1, r);
      NewTopChain(m, next, m', m'[y].parent.value, n - 1, r);
    }
  }

  /** What the target is not below does not change. */
  lemma BesideElsewhere(m: Files, next: Id, target: Option<Id>, m': Files, r: Id)
    requires Beside(m, next, target, m') && IdsBelow(m, next) && r in m
    requires target.Some? ==> target.value in m && !Under(Live(m), r, target.value)
    ensures Subtree(Live(m'), r) == Subtree(Live(m), r)
  {
    if target.Some? {
      GrownElsewhere(m, next, target.value, m', r);
    } else {
      forall y | y in Subtree(Live(m'), r) ensures y in Subtree(Live(m), r) {
        var n: nat :| Up(Live(m'), y, n) == Some(r);
        if y in m { OldChain(m, next, m', y, n); } else { NewTopChain(m, next, m', y, n, r); }
      }
      forall y | y in Subtree(Live(m), r) ensures y in Subtree(Live(m'), r) { UnderMono(Live(m'), Live(m), r, y); }
    }
  }

  // ---------- the copy and its isomorphism ----------

  /** `iso` sends `src` to `dst` and some of the active rows below `src`, parents included,
      each to a row of its own, numbered from `next`, that copies it under the image of its
      parent; `m'` is `m` and those rows. */
  ghost predicate Copied(m: Files, next: Id, m': Files, src: Id, dst: Id, ns: string, iso: map<Id, Id>) {
    && src in iso && iso[src] == dst
    && (forall x {:trigger CopyRow(m, m', src, ns, iso, x)} | x in iso && x != src :: CopyRow(m, m', src, ns, iso, x))
    && (forall x, y | x in iso && y in iso && x != src && y != src && x != y :: iso[x] != iso[y])
    && (forall x | x in m :: x in m' && m'[x] == m[x])
    && (forall n | n in m' && n !in m :: n >= next && ImageOf(iso, src, n))
  }

  ghost predicate CopyRow(m: Files, m': Files, src: Id, ns: string, iso: map<Id, Id>, x: Id) {
    && x in iso && x in Subtree(Live(m), src) && ParentAmong(m, iso.Keys, x)
    && iso[x] !in m && iso[x] in m'
    && IsCopy(m[x], m'[iso[x]], Some(iso[m[x].parent.value]), ns)
  }

  ghost predicate ImageOf(iso: map<Id, Id>, src: Id, n: Id) {
    exists x :: x in iso && x != src && iso[x] == n
  }

  lemma CopiedNothing(m: Files, next: Id, src: Id, dst: Id, ns: string)
    ensures Copied(m, next, m, src, dst, ns, map[src := dst])
  {
  }

  /** Copying one more child, first its row and then what is below it. */
  lemma CopiedChild(m0: Files, next: Id, m: Files, m': Files, src: Id, dst: Id, ns: string, iso: map<Id, Id>, c: Id,
                    n: Id, sub: map<Id, Id>)
    requires Copied(m0, next, m, src, dst, ns, iso) && src in Live(m0) && Acyclic(m0)
    requires c in Live(m0) && m0[c].parent == Some(src) && c !in iso
    requires n !in m && next <= n && Copied(m[n := CopyOf(m0[c], Some(dst), ns)], n + 1, m', c, n, ns, sub)
    requires Subtree(Live(m[n := CopyOf(m0[c], Some(dst), ns)]), c) == Subtree(Live(m0), c)
    requires forall x | x in Subtree(Live(m0), c) :: x !in iso
    ensures Copied(m0, next, m', src, dst, ns, iso + sub)
  {
    var mid := m[n := CopyOf(m0[c], Some(dst), ns)];
    ChildKeysApart(m0, mid, m', src, c, n, ns, iso, sub);
    CopiedRows(m0, m, mid, m', src, c, ns, iso, n, sub);
    CopiedApart(m0, m, mid, m', src, c, ns, iso, n, sub);
    CopiedImages(m0, m, mid, m', src, c, iso, n, sub);
  }

  lemma ChildKeysApart(m0: Files, mid: Files, m': Files, src: Id, c: Id, n: Id, ns: string, iso: map<Id, Id>,
                       sub: map<Id, Id>)
    requires Acyclic(m0) && c in Live(m0) && m0[c].parent == Some(src)
    requires Copied(mid, n + 1, m', c, n, ns, sub) && Subtree(Live(mid), c) == Subtree(Live(m0), c)
    requires forall x | x in Subtree(Live(m0), c) :: x !in iso
    ensures iso.Keys !! sub.Keys && src !in sub
  {
    UnderStep(Live(m0), c, c);
    CopiedKeys(mid, n + 1, m', c, n, ns, sub);
    ChildMissesParent(m0, src, c);
  }

  lemma CopiedRows(m0: Files, m: Files, mid: Files, m': Files, src: Id, c: Id, ns: string, iso: map<Id, Id>, n: Id,
                   sub: map<Id, Id>)
    requires src in Live(m0) && c in Live(m0) && m0[c].parent == Some(src) && src in iso && iso.Keys !! sub.Keys
    requires (forall y | y in m0 :: y in mid && mid[y] == m0[y]) && (forall y | y in m :: y in m' && m'[y] == m[y])
    requires n !in m0 && n in m' && m'[n] == CopyOf(m0[c], Some(iso[src]), ns) && c in sub && sub[c] == n
    requires Subtree(Live(mid), c) == Subtree(Live(m0), c)
    requires forall x {:trigger CopyRow(m0, m, src, ns, iso, x)} | x in iso && x != src ::
              CopyRow(m0, m, src, ns, iso, x)
    requires forall x {:trigger CopyRow(mid, m', c, ns, sub, x)} | x in sub && x != c :: CopyRow(mid, m', c, ns, sub, x)
    ensures var all := iso + sub;
            forall x {:trigger CopyRow(m0, m', src, ns, all, x)} | x in all && x != src ::
              CopyRow(m0, m', src, ns, all, x)
  {
    var all := iso + sub;
    forall x | x in all && x != src ensures CopyRow(m0, m', src, ns, all, x) {
      if x in sub {
        assert x != c ==> CopyRow(mid, m', c, ns, sub, x);
        CopyRowBelow(m0, mid, m', src, c, n, ns, iso, sub, x);
      } else {
        CopyRowBeside(m0, m, m', src, ns, iso, sub, x);
      }
    }
  }

  lemma CopyRowBelow(m0: Files, mid: Files, m': Files, src: Id, c: Id, n: Id, ns: string, iso: map<Id, Id>,
                     sub: map<Id, Id>, x: Id)
    requires src in Live(m0) && c in Live(m0) && m0[c].parent == Some(src) && src in iso && iso.Keys !! sub.Keys
    requires forall y | y in m0 :: y in mid && mid[y] == m0[y]
    requires n !in m0 && n in m' && m'[n] == CopyOf(m0[c], Some(iso[src]), ns) && c in sub && sub[c] == n
    requires Subtree(Live(mid), c) == Subtree(Live(m0), c)
    requires x == c || CopyRow(mid, m', c, ns, sub, x)
    ensures CopyRow(m0, m', src, ns, iso + sub, x)
  {
    UnderStep(Live(m0), c, c);
    SubtreeSplit(Live(m0), src, x);
  }

  lemma CopyRowBeside(m0: Files, m: Files, m': Files, src: Id, ns: string, iso: map<Id, Id>, sub: map<Id, Id>, x: Id)
    requires iso.Keys !! sub.Keys && x in iso && CopyRow(m0, m, src, ns, iso, x)
    requires forall y | y in m :: y in m' && m'[y] == m[y]
    ensures CopyRow(m0, m', src, ns, iso + sub, x)
  {
  }

  /** Every new row is the image of some row. */
  lemma CopiedImages(m0: Files, m: Files, mid: Files, m': Files, src: Id, c: Id, iso: map<Id, Id>, n: Id,
                     sub: map<Id, Id>)
    requires iso.Keys !! sub.Keys && c in sub && sub[c] == n && src !in sub && mid.Keys == m.Keys + {n}
    requires forall k | k in m && k !in m0 :: ImageOf(iso, src, k)
    requires forall k | k in m' && k !in mid :: ImageOf(sub, c, k)
    ensures forall k | k in m' && k !in m0 :: ImageOf(iso + sub, src, k)
  {
    var all := iso + sub;
    forall k | k in m' && k !in m0 ensures ImageOf(all, src, k) {
      if k in m {
        var x :| x in iso && x != src && iso[x] == k;
        assert all[x] == k;
      } else if k == n {
        assert all[c] == n;
      } else {
        var x :| x in sub && x != c && sub[x] == k;
        assert all[x] == k;
      }
    }
  }

  lemma CopiedKeys(m: Files, next: Id, m': Files, src: Id, dst: Id, ns: string, iso: map<Id, Id>)
    requires Copied(m, next, m', src, dst, ns, iso)
    ensures iso.Keys <= Subtree(Live(m), src) + {src}
  {
    forall x | x in iso ensures x in Subtree(Live(m), src) + {src} {
      assert x != src ==> CopyRow(m, m', src, ns, iso, x);
    }
  }

  /** A copy only grows the table around its target. */
  lemma CopiedGrown(m: Files, next: Id, m': Files, src: Id, dst: Id, ns: string, iso: map<Id, Id>)
    requires Copied(m, next, m', src, dst, ns, iso)
    ensures Grown(m, next, dst, m')
  {
    forall n | n in m' && n !in m
      ensures n >= next && Active(m'[n]) && m'[n].parent.Some?
      ensures (m'[n].parent.value == dst || m'[n].parent.value !in m)
    {
      var x :| x in iso && x != src && iso[x] == n;
      assert CopyRow(m, m', src, ns, iso, x);
      var p := m[x].parent.value;
      assert p != src ==> CopyRow(m, m', src, ns, iso, p);
    }
  }

  /** Copies name only hashes their originals name. */
  lemma CopiedKnown(m: Files, next: Id, m': Files, src: Id, dst: Id, ns: string, iso: map<Id, Id>, blobs: Blobs)
    requires Copied(m, next, m', src, dst, ns, iso) && Known(m, blobs)
    ensures Known(m', blobs)
  {
    forall n | n in m' && m'[n].sha.Some? ensures m'[n].sha.value in blobs {
      if n !in m {
        var x :| x in iso && x != src && iso[x] == n;
        assert CopyRow(m, m', src, ns, iso, x);
      }
    }
  }

  /** Before a child is copied it is what it was when the list was taken. */
  lemma BeforeChild(m: Files, next: Id, src: Id, dst: Id, m1: Files, kids: seq<Row>, k: nat)
    requires WellFormed(m) && IdsBelow(m, next) && Grown(m, next, dst, m1) && dst in m
    requires src in Live(m) && !Under(Live(m), src, dst) && ChildList(Live(m), src, kids) && k < |kids|
    ensures kids[k].id in Live(m1) && m1[kids[k].id] == kids[k].file && !Under(Live(m1), kids[k].id, dst)
    ensures |Subtree(Live(m1), kids[k].id)| < |Subtree(Live(m), src)|
    ensures Subtree(Live(m1), kids[k].id) == Subtree(Live(m), kids[k].id)
  {
    ChildUntouched(m, next, src, dst, m1, kids[k].id);
    ExtendedUnder(m, next, m1, kids[k].id, dst);
  }

  /** After it, the copy covers one child's subtree more. */
  lemma AfterChild(m: Files, next: Id, m1: Files, n: Id, m2: Files, src: Id, dst: Id, ns: string, kids: seq<Row>,
                   k: nat, iso: map<Id, Id>, sub: map<Id, Id>)
    requires WellFormed(m) && IdsBelow(m, next) && dst in m && next <= n && IdsBelow(m1, n)
    requires src in Live(m) && !Under(Live(m), src, dst) && ChildList(Live(m), src, kids) && k < |kids|
    requires Copied(m, next, m1, src, dst, ns, iso) && iso.Keys <= Below(Live(m), kids, k) + {src}
    requires Copied(m1[n := CopyOf(kids[k].file, Some(dst), ns)], n + 1, m2, kids[k].id, n, ns, sub)
    ensures Copied(m, next, m2, src, dst, ns, iso + sub)
  {
    var c, copy := kids[k].id, CopyOf(kids[k].file, Some(dst), ns);
    CopiedGrown(m, next, m1, src, dst, ns, iso);
    ChildUntouchedByRow(m, next, src, dst, m1, n, copy, c);
    ChildApart(m, src, kids, k);
    UnderStep(Live(m), c, c);
    assert c in Subtree(Live(m), c);
    CopiedChild(m, next, m1, m2, src, dst, ns, iso, c, n, sub);
  }

  /** The next child's subtree is outside what has been covered. */
  lemma ChildApart(m: Files, d: Id, kids: seq<Row>, k: nat)
    requires WellFormed(m) && d in Live(m) && ChildList(Live(m), d, kids) && k < |kids|
    ensures Subtree(Live(m), kids[k].id) !! Below(Live(m), kids, k) + {d}
    ensures Below(Live(m), kids, k + 1) == Below(Live(m), kids, k) + Subtree(Live(m), kids[k].id)
  {
    var c := kids[k].id;
    WellFormedCut(m, Live(m));
    NextChildIntact(Live(m), d, kids, k);
    assert Subtree(Live(m) - Below(Live(m), kids, k), c) <= (Live(m) - Below(Live(m), kids, k)).Keys;
    ChildMissesParent(m, d, c);
  }

  lemma BelowGrows(m: Files, kids: seq<Row>, k: nat)
    requires k < |kids|
    ensures Below(Live(m), kids, k) <= Below(Live(m), kids, k + 1)
  {
  }

  lemma CoverStep(m: Files, d: Id, kids: seq<Row>, k: nat, iso: map<Id, Id>, sub: map<Id, Id>)
    requires WellFormed(m) && d in Live(m) && ChildList(Live(m), d, kids) && k < |kids|
    requires iso.Keys <= Below(Live(m), kids, k) + {d} && sub.Keys <= Subtree(Live(m), kids[k].id)
    ensures (iso + sub).Keys <= Below(Live(m), kids, k + 1) + {d}
    ensures iso.Keys == Below(Live(m), kids, k) + {d} && sub.Keys == Subtree(Live(m), kids[k].id) ==>
              (iso + sub).Keys == Below(Live(m), kids, k + 1) + {d}
  {
  }

  lemma ChildUntouchedByRow(m: Files, next: Id, src: Id, dst: Id, m1: Files, n: Id, copy: File, c: Id)
    requires WellFormed(m) && IdsBelow(m, next) && Grown(m, next, dst, m1) && dst in m && next <= n && IdsBelow(m1, n)
    requires src in Live(m) && c in Live(m) && m[c].parent == Some(src) && !Under(Live(m), src, dst)
    requires Active(copy) && copy.parent == Some(dst)
    ensures Subtree(Live(m1[n := copy]), c) == Subtree(Live(m), c)
  {
    GrownByOne(m1, n, dst, copy);
    GrownThen(m, next, dst, m1, n, dst, m1[n := copy]);
    ChildUntouched(m, next, src, dst, m1[n := copy], c);
  }

  lemma ChildMissesParent(m: Files, src: Id, c: Id)
    requires Acyclic(m) && c in m && m[c].parent == Some(src)
    ensures src !in Subtree(Live(m), c)
  {
    if src in Subtree(Live(m), c) { UnderMono(m, Live(m), c, src); }
  }

  /** Images of different rows differ. */
  lemma CopiedApart(m0: Files, m: Files, mid: Files, m': Files, src: Id, c: Id, ns: string, iso: map<Id, Id>, n: Id,
                    sub: map<Id, Id>)
    requires iso.Keys !! sub.Keys && n !in m && mid.Keys == m.Keys + {n}
    requires forall x, y | x in iso && y in iso && x != src && y != src && x != y :: iso[x] != iso[y]
    requires forall x, y | x in sub && y in sub && x != c && y != c && x != y :: sub[x] != sub[y]
    requires forall x {:trigger CopyRow(m0, m, src, ns, iso, x)} | x in iso && x != src ::
              CopyRow(m0, m, src, ns, iso, x)
    requires forall x {:trigger CopyRow(mid, m', c, ns, sub, x)} | x in sub && x != c :: CopyRow(mid, m', c, ns, sub, x)
    requires c in sub && sub[c] == n
    ensures var all := iso + sub;
            forall x, y | x in all && y in all && x != src && y != src && x != y :: all[x] != all[y]
  {
    forall x | x in iso && x != src ensures iso[x] in m { assert CopyRow(m0, m, src, ns, iso, x); }
    forall x | x in sub ensures sub[x] !in m { assert x != c ==> CopyRow(mid, m', c, ns, sub, x); }
    forall x | x in sub && x != c ensures sub[x] != n { assert CopyRow(mid, m', c, ns, sub, x); }
  }

  // ---------- completed runs ----------

  /** copyDirChildren(src, dst) can finish within `depth` nested calls, taking the table from
      `m` to `m'`, when no step fails. The listing order is any order. */
  ghost predicate CopyRun(m: Files, next: Id, src: Id, dst: Id, ns: string, m': Files, next': Id, depth: nat)
    decreases depth, 2, 0
  {
    exists kids: seq<Row> :: ChildList(Live(m), src, kids) && CopyLoop(m, next, kids, dst, ns, m', next', depth)
  }

  ghost predicate CopyLoop(m: Files, next: Id, kids: seq<Row>, dst: Id, ns: string, m': Files, next': Id, depth: nat)
    decreases depth, 1, |kids|
  {
    if kids == [] then m' == m && next' == next
    else exists m1: Files, n1: Id {:trigger CopyOne(m1, n1, kids[|kids| - 1], dst, ns, m', next', depth)} ::
           CopyLoop(m, next, kids[..|kids| - 1], dst, ns, m1, n1, depth)
           && CopyOne(m1, n1, kids[|kids| - 1], dst, ns, m', next', depth)
  }

  ghost predicate CopyOne(m: Files, next: Id, kid: Row, dst: Id, ns: string, m': Files, next': Id, depth: nat)
    decreases depth, 0, 0
  {
    var mid := m[next := CopyOf(kid.file, Some(dst), ns)];
    if kid.file.isDir then depth > 0 && CopyRun(mid, next + 1, kid.id, next, ns, m', next', depth - 1)
    else m' == mid && next' == next + 1
  }

  lemma LoopSnoc(m: Files, next: Id, kids: seq<Row>, k: nat, dst: Id, ns: string, m1: Files, n1: Id, m2: Files, n2: Id,
                 depth: nat)
    requires k < |kids| && CopyLoop(m, next, kids[..k], dst, ns, m1, n1, depth)
    requires CopyOne(m1, n1, kids[k], dst, ns, m2, n2, depth)
    ensures CopyLoop(m, next, kids[..k + 1], dst, ns, m2, n2, depth)
  {
    assert kids[..k + 1][..k] == kids[..k];
  }

  /** Runs only add rows. */
  ghost predicate Adds(m: Files, next: Id, m': Files, next': Id) {
    next <= next' && IdsBelow(m', next') && forall x | x in m :: x in m' && m'[x] == m[x]
  }

  lemma {:induction false} OneAdds(m: Files, next: Id, kid: Row, dst: Id, ns: string, m': Files, next': Id, depth: nat)
    requires CopyOne(m, next, kid, dst, ns, m', next', depth) && IdsBelow(m, next) && dst < next
    ensures Adds(m, next, m', next')
    decreases depth, 0, 0
  {
    if kid.file.isDir {
      var mid := m[next := CopyOf(kid.file, Some(dst), ns)];
      var kids: seq<Row> :| ChildList(Live(mid), kid.id, kids)
                            && CopyLoop(mid, next + 1, kids, next, ns, m', next', depth - 1);
      LoopAdds(mid, next + 1, kids, next, ns, m', next', depth - 1);
    }
  }

  lemma {:induction false} LoopAdds(m: Files, next: Id, kids: seq<Row>, dst: Id, ns: string, m': Files, next': Id,
                                    depth: nat)
    requires CopyLoop(m, next, kids, dst, ns, m', next', depth) && IdsBelow(m, next) && dst < next
    ensures Adds(m, next, m', next')
    decreases depth, 1, |kids|
  {
    if kids != [] {
      var m1: Files, n1: Id :| CopyLoop(m, next, kids[..|kids| - 1], dst, ns, m1, n1, depth)
                               && CopyOne(m1, n1, kids[|kids| - 1], dst, ns, m', next', depth);
      LoopAdds(m, next, kids[..|kids| - 1], dst, ns, m1, n1, depth);
      OneAdds(m1, n1, kids[|kids| - 1], dst, ns, m', next', depth);
    }
  }

  /** A finished loop has finished each child, from a table that only grew. */
  lemma {:induction false} LoopReaches(m: Files, next: Id, kids: seq<Row>, dst: Id, ns: string, m': Files, next': Id,
                                       depth: nat, i: nat)
    returns (m1: Files, n1: Id, m2: Files, n2: Id)
    requires CopyLoop(m, next, kids, dst, ns, m', next', depth) && IdsBelow(m, next) && dst < next && i < |kids|
    ensures Adds(m, next, m1, n1) && CopyOne(m1, n1, kids[i], dst, ns, m2, n2, depth)
    decreases |kids|
  {
    m1, n1 :| CopyLoop(m, next, kids[..|kids| - 1], dst, ns, m1, n1, depth)
              && CopyOne(m1, n1, kids[|kids| - 1], dst, ns, m', next', depth);
    if i == |kids| - 1 {
      LoopAdds(m, next, kids[..|kids| - 1], dst, ns, m1, n1, depth);
      m2, n2 := m', next';
    } else {
      m1, n1, m2, n2 := LoopReaches(m, next, kids[..|kids| - 1], dst, ns, m1, n1, depth, i);
    }
  }

  /** `dst` is `k` levels below `src`, through active directories. */
  ghost predicate DirPath(m: Files, src: Id, dst: Id, k: nat) {
    Up(Live(m), dst, k) == Some(src) && forall j: nat | j <= k :: DirAt(m, dst, j)
  }

  ghost predicate DirAt(m: Files, x: Id, j: nat) {
    var u := Up(Live(m), x, j);
    u.Some? && u.value in m && m[u.value].isDir
  }

  lemma {:induction false} PathStays(m: Files, next: Id, m': Files, next': Id, x: Id, j: nat, r: Id)
    requires Adds(m, next, m', next') && Up(Live(m), x, j) == Some(r)
    ensures Up(Live(m'), x, j) == Some(r)
    decreases j
  {
    if j > 0 { PathStays(m, next, m', next', m[x].parent.value, j - 1, r); }
  }

  /** Copying the next directory on the path puts a copy below itself again, as deep as
      before. */
  lemma PathShifts(m: Files, next: Id, src: Id, dst: Id, k: nat, m1: Files, n1: Id, c: Id, copy: File)
    requires DirPath(m, src, dst, k) && k > 0 && Adds(m, next, m1, n1) && Up(Live(m), dst, k - 1) == Some(c)
    requires Active(copy) && copy.isDir && copy.parent == Some(dst)
    ensures DirPath(m1[n1 := copy], c, n1, k) && IdsBelow(m1, n1) && dst < n1
  {
    var m2 := m1[n1 := copy];
    assert DirAt(m, dst, 0);
    forall j: nat | j <= k ensures DirAt(m2, n1, j) && (j > 0 ==> Up(Live(m2), n1, j) == Up(Live(m), dst, j - 1)) {
      if j > 0 {
        assert DirAt(m, dst, j - 1);
        var u := Up(Live(m), dst, j - 1).value;
        PathStays(m, next, m1, n1, dst, j - 1, u);
        PathStays(m1, n1, m2, n1 + 1, dst, j - 1, u);
        UpTop(Live(m), dst, j - 1, u);
      }
    }
  }

  /** Copying a directory to a place below itself never finishes, whatever the depth and
      whatever order the children come in. */
  lemma {:induction false} CopyBelowItselfDiverges(m: Files, next: Id, src: Id, dst: Id, ns: string, m': Files,
                                                   next': Id, depth: nat, k: nat)
    requires IdsBelow(m, next) && k > 0 && DirPath(m, src, dst, k)
    ensures !CopyRun(m, next, src, dst, ns, m', next', depth)
    decreases depth
  {
    if CopyRun(m, next, src, dst, ns, m', next', depth) {
      var kids: seq<Row> :| ChildList(Live(m), src, kids) && CopyLoop(m, next, kids, dst, ns, m', next', depth);
      assert DirAt(m, dst, k - 1) && DirAt(m, dst, 0);
      var c := Up(Live(m), dst, k - 1).value;
      UpAdd(Live(m), dst, k - 1, c, 1);
      UpTop(Live(m), dst, k - 1, c);
      assert Up(Live(m), c, 1) == Some(src);
      var i :| 0 <= i < |kids| && kids[i].id == c;
      var m1, n1, m2, n2 := LoopReaches(m, next, kids, dst, ns, m', next', depth, i);
      var copy := CopyOf(kids[i].file, Some(dst), ns);
      PathShifts(m, next, src, dst, k, m1, n1, c, copy);
      CopyBelowItselfDiverges(m1[n1 := copy], n1 + 1, c, n1, ns, m2, n2, depth - 1, k);
    }
  }
}

module Copies {
  import opened Types
  import opened Forest
  import opened Refs
  import opened Sums
  import opened Stores
  import opened Tree
  import opened CopyTables
  import opened Deletion

  /** Every surplus is what it was, less the increments that failed. */
  ghost predicate SlackLess(f0: Files, b0: Blobs, f1: Files, b1: Blobs, lost: multiset<Sha>) {
    && b0.Keys == b1.Keys
    && forall s | s in b0 ::
         && b1[s].refs - Count(f1, s) == b0[s].refs - Count(f0, s) - lost[s]
         && b1[s].path == b0[s].path && b1[s].size == b0[s].size
  }

  /** Inserting a row with or without counting it. */
  lemma InsertSlackLess(files: Files, blobs: Blobs, x: Id, f: File, counted: bool)
    requires x !in files && (f.sha.Some? ==> f.sha.value in blobs)
    ensures SlackLess(files, blobs, files[x := f],
                      if f.sha.Some? && counted then Incr(blobs, f.sha.value) else blobs,
                      if f.sha.Some? && !counted then multiset{f.sha.value} else multiset{})
  {
    forall s | s in blobs
      ensures Count(files[x := f], s) == Count(files, s) + if f.sha == Some(s) then 1 else 0
    {
      CountInsert(files, x, f, s);
    }
  }

  /** A failed increment leaves a count below its rows: nothing missed is exactly what
      keeps exact counts exact. */
  lemma MissedIsDrift(f0: Files, b0: Blobs, f1: Files, b1: Blobs, lost: multiset<Sha>)
    requires Conserved(f0, b0) && SlackLess(f0, b0, f1, b1, lost) && Known(f1, b1)
    requires forall s | s in lost :: s in b0
    ensures Conserved(f1, b1) <==> lost == multiset{}
    ensures lost != multiset{} ==> !Covered(f1, b1)
  {
  }

  /** The tables before and after a copy, with the next identifier. */
  datatype Span = Span(t: Tables, next: Id, t': Tables, next': Id)

  /** What every part of a copy keeps, whatever fails. */
  ghost predicate Kept(s: Span, lost: multiset<Sha>) {
    && s.next <= s.next' && Sound(s.t'.files, s.next')
    && SlackLess(s.t.files, s.t.blobs, s.t'.files, s.t'.blobs, lost)
    && forall h | h in lost :: h in s.t.blobs
  }

  lemma KeptThen(s1: Span, l1: multiset<Sha>, s2: Span, l2: multiset<Sha>)
    requires Kept(s1, l1) && Kept(s2, l2) && s2.t == s1.t' && s2.next == s1.next'
    ensures Kept(Span(s1.t, s1.next, s2.t', s2.next'), l1 + l2)
  {
  }

  /** Copying below one directory: `iso` sends each copied row to its copy, `lost` counts the
      increments that failed. If no step failed, every active row below `src` was copied and
      counted, in a completed run. */
  ghost predicate DirCopied(quiet: bool, s: Span, src: Id, dst: Id, ns: string,
                            iso: map<Id, Id>, lost: multiset<Sha>, depth: nat) {
    && Kept(s, lost) && Copied(s.t.files, s.next, s.t'.files, src, dst, ns, iso)
    && (quiet ==> lost == multiset{} && iso.Keys == Subtree(Live(s.t.files), src)
                  && CopyRun(s.t.files, s.next, src, dst, ns, s.t'.files, s.next', depth))
  }

  /** Where the loop over the children stands after `k` of them. */
  ghost predicate LoopCopied(quiet: bool, s: Span, src: Id, dst: Id, ns: string, kids: seq<Row>, k: nat,
                             iso: map<Id, Id>, lost: multiset<Sha>, depth: nat)
    requires k <= |kids|
  {
    && Kept(s, lost) && Copied(s.t.files, s.next, s.t'.files, src, dst, ns, iso)
    && iso.Keys <= Below(Live(s.t.files), kids, k) + {src}
    && (quiet ==> lost == multiset{} && iso.Keys == Below(Live(s.t.files), kids, k) + {src}
                  && CopyLoop(s.t.files, s.next, kids[..k], dst, ns, s.t'.files, s.next', depth))
  }

  /** The same for one child: nothing, or its row and what is below it. */
  ghost predicate ChildCopied(quiet: bool, s: Span, child: Row, dst: Id, ns: string,
                              n: Option<Id>, sub: map<Id, Id>, lost: multiset<Sha>, depth: nat) {
    && Kept(s, lost) && s.next !in s.t.files
    && (if n.None? then s.t'.files == s.t.files
        else n.value == s.next && sub.Keys <= Subtree(Live(s.t.files), child.id)
             && Copied(s.t.files[s.next := CopyOf(child.file, Some(dst), ns)], s.next + 1, s.t'.files, child.id, s.next,
                       ns, sub))
    && (quiet ==> n.Some? && lost == multiset{} && sub.Keys == Subtree(Live(s.t.files), child.id)
                  && CopyOne(s.t.files, s.next, child, dst, ns, s.t'.files, s.next', depth))
  }

  /** What a copy may start from. */
  ghost predicate Ready(t: Tables, next: Id, src: Id, dst: Id, ns: string) {
    && Sound(t.files, next) && Known(t.files, t.blobs)
    && src in Live(t.files) && !Under(Live(t.files), src, dst)
    && dst in Live(t.files) && t.files[dst].isDir && t.files[dst].ns == ns
  }

  lemma LoopStart(t: Tables, next: Id, src: Id, dst: Id, ns: string, kids: seq<Row>, depth: nat)
    requires Sound(t.files, next)
    ensures LoopCopied(true, Span(t, next, t, next), src, dst, ns, kids, 0, map[src := dst], multiset{}, depth)
  {
  }

  /** The next child can be copied as if nothing had happened. */
  lemma LoopReady(quiet: bool, s: Span, src: Id, dst: Id, ns: string, kids: seq<Row>, k: nat,
                  iso: map<Id, Id>, lost: multiset<Sha>, depth: nat)
    requires Ready(s.t, s.next, src, dst, ns) && ChildList(Live(s.t.files), src, kids) && k < |kids|
    requires LoopCopied(quiet, s, src, dst, ns, kids, k, iso, lost, depth)
    ensures Ready(s.t', s.next', kids[k].id, dst, ns) && s.t'.files[kids[k].id] == kids[k].file
    ensures Subtree(Live(s.t'.files), kids[k].id) == Subtree(Live(s.t.files), kids[k].id)
    ensures |Subtree(Live(s.t'.files), kids[k].id)| < |Subtree(Live(s.t.files), src)|
  {
    CopiedGrown(s.t.files, s.next, s.t'.files, src, dst, ns, iso);
    CopiedKnown(s.t.files, s.next, s.t'.files, src, dst, ns, iso, s.t'.blobs);
    BeforeChild(s.t.files, s.next, src, dst, s.t'.files, kids, k);
  }

  /** One more child. */
  lemma LoopStep(q1: bool, s1: Span, q2: bool, s2: Span, q: bool, src: Id, dst: Id, ns: string, kids: seq<Row>, k: nat,
                 iso: map<Id, Id>, lost: multiset<Sha>, n: Option<Id>, sub: map<Id, Id>, l: multiset<Sha>, depth: nat)
    requires Ready(s1.t, s1.next, src, dst, ns) && ChildList(Live(s1.t.files), src, kids) && k < |kids|
    requires LoopCopied(q1, s1, src, dst, ns, kids, k, iso, lost, depth)
    requires s2.t == s1.t' && s2.next == s1.next' && (q ==> q1 && q2)
    requires ChildCopied(q2, s2, kids[k], dst, ns, n, sub, l, depth)
    ensures LoopCopied(q, Span(s1.t, s1.next, s2.t', s2.next'), src, dst, ns, kids, k + 1,
                       if n.Some? then iso + sub else iso, lost + l, depth)
  {
    var m, t1, t2 := s1.t, s1.t', s2.t';
    LoopReady(q1, s1, src, dst, ns, kids, k, iso, lost, depth);
    if n.Some? {
      AfterChild(m.files, s1.next, t1.files, s1.next', t2.files, src, dst, ns, kids, k, iso, sub);
      CoverStep(m.files, src, kids, k, iso, sub);
    }
    KeptThen(s1, lost, s2, l);
    BelowGrows(m.files, kids, k);
    if q { LoopSnoc(m.files, s1.next, kids, k, dst, ns, t1.files, s1.next', t2.files, s2.next', depth); }
  }

  lemma LoopEnd(q: bool, s: Span, src: Id, dst: Id, ns: string, kids: seq<Row>, k: nat,
                iso: map<Id, Id>, lost: multiset<Sha>, depth: nat)
    requires Ready(s.t, s.next, src, dst, ns) && ChildList(Live(s.t.files), src, kids) && k <= |kids|
    requires LoopCopied(q, s, src, dst, ns, kids, k, iso, lost, depth) && (q ==> k == |kids|)
    ensures DirCopied(q, s, src, dst, ns, iso, lost, depth)
  {
    WellFormedCut(s.t.files, Live(s.t.files));
    AllChildrenCovered(Live(s.t.files), src, kids);
    assert kids[..|kids|] == kids;
  }

  /** What inserting the copy of a directory changes for the walk that follows. */
  lemma RowInserted(m: Files, next: Id, child: Id, dst: Id, ns: string)
    requires Sound(m, next) && child in Live(m) && dst in Live(m) && !Under(Live(m), child, dst)
    ensures var mid := m[next := CopyOf(m[child], Some(dst), ns)];
            && Copied(mid, next + 1, mid, child, next, ns, map[child := next])
            && Subtree(Live(mid), child) == Subtree(Live(m), child) && child in Subtree(Live(m), child)
            && child in Live(mid) && next in Live(mid) && !Under(Live(mid), child, next)
            && (!m[child].isDir ==> Subtree(Live(m), child) == {child})
  {
    var copy := CopyOf(m[child], Some(dst), ns);
    GrownByOne(m, next, dst, copy);
    GrownElsewhere(m, next, dst, m[next := copy], child);
    UnderAddLeafLive(m, next, copy, child);
    CopiedNothing(m[next := copy], next + 1, child, next, ns);
    UnderStep(Live(m), child, child);
    if !m[child].isDir { FileSubtree(m, Live(m), child); }
  }

  /** A new row below `dst` is not below anything `dst` is not below. */
  lemma UnderAddLeafLive(m: Files, next: Id, f: File, r: Id)
    requires IdsBelow(m, next) && Active(f) && f.parent.Some? && f.parent.value in Live(m) && r in m
    requires !Under(Live(m), r, f.parent.value)
    ensures !Under(Live(m[next := f]), r, next)
  {
    assert Live(m[next := f]) == Live(m)[next := f];
    UnderAddLeaf(Live(m), next, f, r, next);
  }

  /** After the row alone. */
  lemma ChildRow(q: bool, t: Tables, next: Id, t1: Tables, child: Row, dst: Id, ns: string, n: Option<Id>,
                 lost: multiset<Sha>, depth: nat)
    requires Ready(t, next, child.id, dst, ns) && t.files[child.id] == child.file
    requires Recorded(q, t, next, t1, child.file, Some(dst), ns, n, lost)
    ensures ChildCopied(q && !child.file.isDir, Span(t, next, t1, next + 1), child, dst, ns, n, map[child.id := next],
                        lost, depth)
    ensures n.Some? && child.file.isDir ==>
              Ready(t1, next + 1, child.id, next, ns) && SameBelow(t.files, t1.files, child.id)
  {
    RowInserted(t.files, next, child.id, dst, ns);
  }

  /** A row is there, and what is below it is what it was. */
  ghost predicate SameBelow(m: Files, m': Files, id: Id) {
    id in Subtree(Live(m), id) && Subtree(Live(m'), id) == Subtree(Live(m), id)
  }

  /** After what is below it. */
  lemma ChildTree(q1: bool, t: Tables, next: Id, q2: bool, s: Span, q: bool, child: Row, dst: Id, ns: string,
                  lost: multiset<Sha>, sub: map<Id, Id>, l: multiset<Sha>, depth: nat)
    requires child.file.isDir && depth > 0 && SameBelow(t.files, s.t.files, child.id)
    requires Recorded(q1, t, next, s.t, child.file, Some(dst), ns, Some(next), lost) && s.next == next + 1
    requires DirCopied(q2, s, child.id, next, ns, sub, l, depth - 1) && (q ==> q1 && q2)
    ensures ChildCopied(q, Span(t, next, s.t', s.next'), child, dst, ns, Some(next), sub, lost + l, depth)
  {
    CopiedKeys(s.t.files, next + 1, s.t'.files, child.id, next, ns, sub);
    KeptThen(Span(t, next, s.t, next + 1), lost, s, l);
  }

  /** The tables after one row has been inserted and counted, or not. */
  ghost predicate Recorded(quiet: bool, t: Tables, next: Id, t': Tables, row: File, parent: Option<Id>, ns: string,
                           n: Option<Id>, lost: multiset<Sha>) {
    && next !in t.files && Sound(t'.files, next + 1) && Known(t'.files, t'.blobs)
    && (n.Some? ==> n.value == next)
    && t'.files == (if n.Some? then t.files[next := CopyOf(row, parent, ns)] else t.files)
    && SlackLess(t.files, t.blobs, t'.files, t'.blobs, lost)
    && (forall s | s in lost :: s in t.blobs)
    && (quiet ==> n.Some? && lost == multiset{})
  }

  lemma RecordStep(t: Tables, next: Id, row: File, parent: Option<Id>, ns: string)
    requires Sound(t.files, next) && Known(t.files, t.blobs) && (row.sha.Some? ==> row.sha.value in t.blobs)
    requires parent.Some? ==>
              parent.value in Live(t.files) && t.files[parent.value].isDir && t.files[parent.value].ns == ns
    ensures var copy := CopyOf(row, parent, ns); var files := t.files[next := copy];
            && Recorded(false, t, next, t, row, parent, ns, None, multiset{})
            && Recorded(true, t, next, Tables(files, if copy.sha.Some? then Incr(t.blobs, copy.sha.value) else t.blobs),
                        row, parent, ns, Some(next), multiset{})
            && (copy.sha.Some? ==>
                  Recorded(false, t, next, Tables(files, t.blobs), row, parent, ns, Some(next),
                           multiset{copy.sha.value}))
  {
    var copy := CopyOf(row, parent, ns);
    AddSound(t.files, next, copy);
    InsertSlackLess(t.files, t.blobs, next, copy, true);
    InsertSlackLess(t.files, t.blobs, next, copy, false);
  }

  class Copier {
    const store: Store

    constructor (store: Store)
      ensures this.store == store
    {
      this.store := store;
    }

    /** Insert one copied row and count it; a failed insert skips it, a failed count is
        logged. */
    method CopyRecord(row: File, parent: Option<Id>, ns: string) returns (n: Option<Id>, ghost lost: multiset<Sha>)
      requires Sound(store.files, store.nextId) && Known(store.files, store.blobs)
      requires row.sha.Some? ==> row.sha.value in store.blobs
      requires parent.Some? ==>
                parent.value in Live(store.files) && store.files[parent.value].isDir
                && store.files[parent.value].ns == ns
      modifies store`files, store`blobs, store`nextId, store`steps
      ensures old(store.steps) < store.steps && store.nextId == old(store.nextId) + 1
      ensures Recorded(store.Quiet(old(store.steps), store.steps), old(store.Now()), old(store.nextId), store.Now(),
                       row, parent, ns, n, lost)
      ensures n.None? ==> store.blobs == old(store.blobs) && lost == multiset{}
    {
      RecordStep(store.Now(), store.nextId, row, parent, ns);
      lost := multiset{};
      var copy := CopyOf(row, parent, ns);
      var id := store.NewID();
      var err := store.PutFile(id, copy);
      n := if err.None? then Some(id) else None;
      if n.Some? && copy.sha.Some? {
        err := store.IncrBlobRef(copy.sha.value);
        if err.Some? { lost := multiset{copy.sha.value}; }
      }
    }

    /** Everything between the start of an operation and now. */
    ghost function Since(t: Tables, next: Id): Span
      reads store`files, store`blobs, store`nextId
    {
      Span(t, next, store.Now(), store.nextId)
    }

    /** batch.go:257-306. The target may lie anywhere but below the source. */
    method CopyDirChildren(src: Id, dst: Id, ns: string, ghost depth: nat)
      returns (err: Option<Error>, ghost iso: map<Id, Id>, ghost lost: multiset<Sha>)
      requires Ready(store.Now(), store.nextId, src, dst, ns) && |Subtree(Live(store.files), src)| <= depth
      modifies store`files, store`blobs, store`nextId, store`steps
      ensures old(store.steps) <= store.steps
      ensures store.Quiet(old(store.steps), store.steps) ==> err.None?
      ensures DirCopied(store.Quiet(old(store.steps), store.steps), Since(old(store.Now()), old(store.nextId)), src,
                        dst, ns, iso, lost, depth)
      decreases |Subtree(Live(store.files), src)|, 2
    {
      LoopStart(store.Now(), store.nextId, src, dst, ns, [], depth);
      iso, lost := map[src := dst], multiset{};
      var kids;
      err, kids := store.ListChildren(src);
      if err.None? {
        ListedChildren(store, src, kids);
        err, iso, lost := CopyChildren(src, dst, ns, kids, depth);
      }
    }

    /** The loop over the children list, taken before any row was inserted. */
    method CopyChildren(src: Id, dst: Id, ns: string, kids: seq<Row>, ghost depth: nat)
      returns (err: Option<Error>, ghost iso: map<Id, Id>, ghost lost: multiset<Sha>)
      requires Ready(store.Now(), store.nextId, src, dst, ns) && |Subtree(Live(store.files), src)| <= depth
      requires ChildList(Live(store.files), src, kids)
      modifies store`files, store`blobs, store`nextId, store`steps
      ensures old(store.steps) <= store.steps
      ensures store.Quiet(old(store.steps), store.steps) ==> err.None?
      ensures DirCopied(store.Quiet(old(store.steps), store.steps), Since(old(store.Now()), old(store.nextId)), src,
                        dst, ns, iso, lost, depth)
      decreases |Subtree(Live(store.files), src)|, 1
    {
      ghost var t, next := store.Now(), store.nextId;
      LoopStart(t, next, src, dst, ns, kids, depth);
      err, iso, lost := None, map[src := dst], multiset{};
      var k := 0;
      while k < |kids| && err.None?
        invariant k <= |kids| && old(store.steps) <= store.steps
        invariant store.Quiet(old(store.steps), store.steps) ==> err.None?
        invariant LoopCopied(store.Quiet(old(store.steps), store.steps), Since(t, next), src, dst, ns, kids, k, iso,
                             lost, depth)
      {
        ghost var step1 := store.steps;
        err, iso, lost := CopyNth(src, dst, ns, kids, k, depth, t, next, store.Quiet(old(store.steps), step1), iso,
                                  lost);
        store.QuietSplit(old(store.steps), step1, store.steps);
        k := k + 1;
      }
      LoopEnd(store.Quiet(old(store.steps), store.steps), Since(t, next), src, dst, ns, kids, k, iso, lost, depth);
    }

    /** One step of the loop. */
    method CopyNth(src: Id, dst: Id, ns: string, kids: seq<Row>, k: nat, ghost depth: nat, ghost t: Tables,
                   ghost next: Id,
                   ghost q: bool, ghost iso0: map<Id, Id>, ghost lost0: multiset<Sha>)
      returns (err: Option<Error>, ghost iso: map<Id, Id>, ghost lost: multiset<Sha>)
      requires Ready(t, next, src, dst, ns) && |Subtree(Live(t.files), src)| <= depth
      requires ChildList(Live(t.files), src, kids) && k < |kids|
      requires LoopCopied(q, Since(t, next), src, dst, ns, kids, k, iso0, lost0, depth)
      modifies store`files, store`blobs, store`nextId, store`steps
      ensures old(store.steps) <= store.steps
      ensures store.Quiet(old(store.steps), store.steps) ==> err.None?
      ensures LoopCopied(q && store.Quiet(old(store.steps), store.steps), Since(t, next), src, dst, ns, kids, k + 1,
                         iso, lost, depth)
      decreases |Subtree(Live(t.files), src)|, 0
    {
      ghost var s1 := Since(t, next);
      LoopReady(q, s1, src, dst, ns, kids, k, iso0, lost0, depth);
      var n;
      ghost var sub, l;
      err, n, sub, l := CopyChild(kids[k], dst, ns, depth);
      ghost var q2 := store.Quiet(old(store.steps), store.steps);
      LoopStep(q, s1, q2, Since(s1.t', s1.next'), q && q2, src, dst, ns, kids, k, iso0, lost0, n, sub, l, depth);
      iso, lost := if n.Some? then iso0 + sub else iso0, lost0 + l;
    }

    /** One child: its row, then, for a directory, what is below it. */
    method CopyChild(child: Row, dst: Id, ns: string, ghost depth: nat)
      returns (err: Option<Error>, n: Option<Id>, ghost sub: map<Id, Id>, ghost lost: multiset<Sha>)
      requires Ready(store.Now(), store.nextId, child.id, dst, ns) && store.files[child.id] == child.file
      requires |Subtree(Live(store.files), child.id)| < depth
      modifies store`files, store`blobs, store`nextId, store`steps
      ensures old(store.steps) < store.steps
      ensures store.Quiet(old(store.steps), store.steps) ==> err.None?
      ensures ChildCopied(store.Quiet(old(store.steps), store.steps), Since(old(store.Now()), old(store.nextId)), child,
                          dst, ns, n, sub, lost, depth)
      decreases |Subtree(Live(store.files), child.id)|, 4
    {
      ghost var t, next := store.Now(), store.nextId;
      err, sub := None, map[child.id := next];
      n, lost := CopyRecord(child.file, Some(dst), ns);
      ghost var t1, step1 := store.Now(), store.steps;
      ghost var q1 := store.Quiet(old(store.steps), step1);
      ChildRow(q1, t, next, t1, child, dst, ns, n, lost, depth);
      if n.Some? && child.file.isDir {
        err, sub, lost := CopySubdirectory(child, n.value, dst, ns, depth, t, q1, lost);
        store.QuietSplit(old(store.steps), step1, store.steps);
      }
    }

    /** What is below a directory whose own row has just been copied. */
    method CopySubdirectory(child: Row, n: Id, ghost dst: Id, ns: string, ghost depth: nat, ghost t: Tables,
                            ghost q: bool, ghost lost0: multiset<Sha>)
      returns (err: Option<Error>, ghost sub: map<Id, Id>, ghost lost: multiset<Sha>)
      requires child.file.isDir && SameBelow(t.files, store.files, child.id)
      requires Recorded(q, t, n, store.Now(), child.file, Some(dst), ns, Some(n), lost0) && store.nextId == n + 1
      requires Ready(store.Now(), store.nextId, child.id, n, ns) && |Subtree(Live(store.files), child.id)| < depth
      modifies store`files, store`blobs, store`nextId, store`steps
      ensures old(store.steps) <= store.steps
      ensures store.Quiet(old(store.steps), store.steps) ==> err.None?
      ensures ChildCopied(q && store.Quiet(old(store.steps), store.steps), Since(t, n), child, dst, ns, Some(n), sub,
                          lost, depth)
      decreases |Subtree(Live(store.files), child.id)|, 3
    {
      ghost var t1, l := store.Now(), multiset{};
      err, sub, l := CopyDirChildren(child.id, n, ns, depth - 1);
      ghost var q2 := store.Quiet(old(store.steps), store.steps);
      ChildTree(q, t, n, q2, Since(t1, n + 1), q && q2, child, dst, ns, lost0, sub, l, depth);
      lost := lost0 + l;
    }

    /** One of the rows named in a batch (batch.go:193-247). A row that cannot be read, is
        foreign or cannot be inserted is skipped; a failure below it is only logged. */
    method CopyItem(id: Id, target: Option<Id>, ns: string)
      returns (n: Option<Id>, ghost iso: map<Id, Id>, ghost lost: multiset<Sha>)
      requires Sound(store.files, store.nextId) && Known(store.files, store.blobs)
      requires TargetOk(store.files, target, ns) && NotBelow(store.files, id, target)
      modifies store`files, store`blobs, store`nextId, store`steps
      ensures old(store.steps) <= store.steps
      ensures ItemCopied(store.Quiet(old(store.steps), store.steps), Since(old(store.Now()), old(store.nextId)), id,
                         target, ns, n, iso, lost)
    {
      NothingCopied(store.Now(), store.nextId, id, target, ns);
      n, iso, lost := None, map[], multiset{};
      var err, row := store.GetFile(id);
      if err.None? && row.Some? && row.value.file.ns == ns {
        n, iso, lost := CopyFound(row.value, target, ns);
      }
    }

    /** A row that was found. */
    method CopyFound(row: Row, target: Option<Id>, ns: string)
      returns (n: Option<Id>, ghost iso: map<Id, Id>, ghost lost: multiset<Sha>)
      requires Sound(store.files, store.nextId) && Known(store.files, store.blobs)
      requires TargetOk(store.files, target, ns) && NotBelow(store.files, row.id, target)
      requires Eligible(store.files, row.id, ns) && store.files[row.id] == row.file
      modifies store`files, store`blobs, store`nextId, store`steps
      ensures old(store.steps) <= store.steps
      ensures ItemCopied(store.Quiet(old(store.steps), store.steps), Since(old(store.Now()), old(store.nextId)), row.id,
                         target, ns, n, iso, lost)
    {
      ghost var t, next := store.Now(), store.nextId;
      n, lost := CopyRecord(row.file, target, ns);
      ghost var step1 := store.steps;
      iso, lost := CopyRest(row, target, ns, t, next, store.Quiet(old(store.steps), step1), n, lost);
      store.QuietSplit(old(store.steps), step1, store.steps);
    }

    /** All but its own row. */
    method CopyRest(row: Row, target: Option<Id>, ns: string, ghost t: Tables, ghost next: Id, ghost q: bool,
                    n: Option<Id>, ghost lost0: multiset<Sha>)
      returns (ghost iso: map<Id, Id>, ghost lost: multiset<Sha>)
      requires Sound(t.files, next) && TargetOk(t.files, target, ns) && NotBelow(t.files, row.id, target)
      requires Eligible(t.files, row.id, ns) && t.files[row.id] == row.file && store.nextId == next + 1
      requires Recorded(q, t, next, store.Now(), row.file, target, ns, n, lost0)
      modifies store`files, store`blobs, store`nextId, store`steps
      ensures old(store.steps) <= store.steps
      ensures ItemCopied(q && store.Quiet(old(store.steps), store.steps), Since(t, next), row.id, target, ns, n, iso,
                         lost)
    {
      ItemRow(q, t, next, store.Now(), row, target, ns, n, lost0);
      iso, lost := map[row.id := next], lost0;
      if n.Some? && row.file.isDir { iso, lost := CopyBelow(row, target, ns, t, q, n.value, lost0); }
    }

    /** What is below a directory whose own row has been copied. */
    method CopyBelow(row: Row, target: Option<Id>, ns: string, ghost t: Tables, ghost q: bool, n: Id,
                     ghost lost0: multiset<Sha>)
      returns (ghost iso: map<Id, Id>, ghost lost: multiset<Sha>)
      requires Sound(t.files, n) && TargetOk(t.files, target, ns) && NotBelow(t.files, row.id, target)
      requires Eligible(t.files, row.id, ns) && t.files[row.id] == row.file
      requires Recorded(q, t, n, store.Now(), row.file, target, ns, Some(n), lost0)
      requires store.nextId == n + 1 && Ready(store.Now(), n + 1, row.id, n, ns)
      modifies store`files, store`blobs, store`nextId, store`steps
      ensures old(store.steps) <= store.steps
      ensures ItemCopied(q && store.Quiet(old(store.steps), store.steps), Since(t, n), row.id, target, ns, Some(n), iso,
                         lost)
    {
      ghost var t1, l, depth := store.Now(), multiset{}, |Subtree(Live(store.files), row.id)|;
      var err;
      err, iso, l := CopyDirChildren(row.id, n, ns, depth);
      ghost var q2 := store.Quiet(old(store.steps), store.steps);
      ItemTree(q, t, n, q2, Since(t1, n + 1), q && q2, row, target, ns, lost0, iso, l, depth);
      lost := lost0 + l;
    }

    /** batch.go:172-254: the number of rows copied. Sources are never touched; `items` are the
        copies made, item by item, and tell every count. */
    method BatchCopy(ids: seq<Id>, target: Option<Id>, ns: string)
      returns (err: Option<Error>, copied: nat, ghost items: seq<ItemCopy>, ghost lost: multiset<Sha>)
      requires Sound(store.files, store.nextId) && Known(store.files, store.blobs)
      requires forall id | id in ids :: id < store.nextId && NotBelow(store.files, id, target)
      modifies store`files, store`blobs, store`nextId, store`steps
      ensures err.Some? ==> store.Now() == old(store.Now()) && store.nextId == old(store.nextId)
      ensures err.None? ==>
                BatchCopied(store.Quiet(old(store.steps), store.steps), Since(old(store.Now()), old(store.nextId)),
                                        ids, target, ns, items, copied, lost)
      ensures err.None? ==> forall s | s in old(store.blobs) ::
                store.blobs[s].refs + lost[s] == old(store.blobs)[s].refs + BatchNamers(old(store.files), items, s)
      ensures store.Quiet(old(store.steps), store.steps) ==> err == TargetAnswer(old(store.files), target, ns)
    {
      copied, items, lost := 0, [], multiset{};
      err := CheckTarget(target, ns);
      if err.None? {
        ghost var t, next, step1 := store.Now(), store.nextId, store.steps;
        copied, items, lost := CopyAll(ids, target, ns);
        store.QuietSplit(old(store.steps), step1, store.steps);
        BatchCounts(store.Quiet(step1, store.steps), Since(t, next), ids, target, ns, items, copied, lost);
      }
    }

    method CheckTarget(target: Option<Id>, ns: string) returns (err: Option<Error>)
      modifies store`steps
      ensures old(store.steps) <= store.steps
      ensures err.None? ==> TargetOk(store.files, target, ns)
      ensures store.Quiet(old(store.steps), store.steps) ==> err == TargetAnswer(store.files, target, ns)
    {
      if target.None? { return None; }
      var dir;
      err, dir := store.GetFile(target.value);
      if err.Some? { return; }
      if dir.None? { return Some(NotFound); }
      if dir.value.file.ns != ns { return Some(Forbidden); }
      if !dir.value.file.isDir { return Some(InvalidArgument); }
    }

    /** The loop over the batch. */
    method CopyAll(ids: seq<Id>, target: Option<Id>, ns: string)
      returns (copied: nat, ghost items: seq<ItemCopy>, ghost lost: multiset<Sha>)
      requires Sound(store.files, store.nextId) && Known(store.files, store.blobs) && TargetOk(store.files, target, ns)
      requires forall id | id in ids :: id < store.nextId && NotBelow(store.files, id, target)
      modifies store`files, store`blobs, store`nextId, store`steps
      ensures old(store.steps) <= store.steps
      ensures BatchCopied(store.Quiet(old(store.steps), store.steps), Since(old(store.Now()), old(store.nextId)),
                          ids, target, ns, items, copied, lost)
    {
      ghost var t, next := store.Now(), store.nextId;
      NothingCopied(t, next, 0, target, ns);
      copied, items, lost := 0, [], multiset{};
      for i := 0 to |ids|
        invariant old(store.steps) <= store.steps
        invariant BatchCopied(store.Quiet(old(store.steps), store.steps), Since(t, next), ids[..i], target, ns, items,
                              copied, lost)
      {
        assert ids[i] in ids && ids[..i + 1] == ids[..i] + [ids[i]];
        ghost var step1 := store.steps;
        copied, items, lost := CopyNext(ids[..i], ids[i], target, ns, t, next, store.Quiet(old(store.steps), step1),
                                        copied, items, lost);
        store.QuietSplit(old(store.steps), step1, store.steps);
      }
      assert ids[..|ids|] == ids;
    }

    /** One turn of that loop. */
    method CopyNext(ghost ids: seq<Id>, id: Id, target: Option<Id>, ns: string, ghost t: Tables, ghost next: Id,
                    ghost q: bool,
                    copied0: nat, ghost items0: seq<ItemCopy>, ghost lost0: multiset<Sha>)
      returns (copied: nat, ghost items: seq<ItemCopy>, ghost lost: multiset<Sha>)
      requires id < next && Sound(t.files, next) && TargetOk(t.files, target, ns) && NotBelow(t.files, id, target)
      requires BatchCopied(q, Since(t, next), ids, target, ns, items0, copied0, lost0)
      modifies store`files, store`blobs, store`nextId, store`steps
      ensures old(store.steps) <= store.steps
      ensures BatchCopied(q && store.Quiet(old(store.steps), store.steps), Since(t, next), ids + [id], target, ns,
                          items, copied, lost)
    {
      ghost var s1 := Since(t, next);
      StillNotBelow(t.files, next, s1.t'.files, id, target, ns);
      var n;
      ghost var iso, l;
      n, iso, l := CopyItem(id, target, ns);
      ghost var q2 := store.Quiet(old(store.steps), store.steps);
      BatchStep(q, s1, q2, Since(s1.t', s1.next'), ids, id, target, ns, copied0, items0, lost0, n, iso, l);
      copied := if n.Some? then copied0 + 1 else copied0;
      items, lost := items0 + [ItemCopy(n, iso)], lost0 + l;
    }
  }

  /** Why a batch is not begun. */
  function TargetAnswer(m: Files, target: Option<Id>, ns: string): Option<Error> {
    if target.None? then None
    else if target.value !in m || !Active(m[target.value]) then Some(NotFound)
    else if m[target.value].ns != ns then Some(Forbidden)
    else if !m[target.value].isDir then Some(InvalidArgument)
    else None
  }

  /** The checks on the target directory. */
  ghost predicate TargetOk(m: Files, target: Option<Id>, ns: string) {
    target.Some? ==> target.value in Live(m) && m[target.value].isDir && m[target.value].ns == ns
  }

  /** The target does not lie in the directory to be copied. */
  ghost predicate NotBelow(m: Files, id: Id, target: Option<Id>) {
    target.Some? ==> !Under(Live(m), id, target.value)
  }

  ghost predicate Eligible(m: Files, id: Id, ns: string) {
    id in Live(m) && m[id].ns == ns
  }

  ghost function EligibleCount(m: Files, ids: seq<Id>, ns: string): nat {
    if ids == [] then 0
    else EligibleCount(m, ids[..|ids| - 1], ns) + if Eligible(m, ids[|ids| - 1], ns) then 1 else 0
  }

  /** One item: nothing, or its row and, for a directory, what is below it. */
  ghost predicate ItemCopied(quiet: bool, s: Span, id: Id, target: Option<Id>, ns: string,
                             n: Option<Id>, iso: map<Id, Id>, lost: multiset<Sha>) {
    && Kept(s, lost) && Known(s.t'.files, s.t'.blobs) && Extended(s.t.files, s.next, s.t'.files)
    && (if n.Some? then n == Some(s.next) && ImageOfItem(s, id, target, ns, iso) else s.t'.files == s.t.files)
    && (quiet ==> (n.Some? <==> Eligible(s.t.files, id, ns)) && lost == multiset{})
    && (quiet && n.Some? ==> iso.Keys == Subtree(Live(s.t.files), id))
  }

  /** The new rows are images of rows below the item, the item's own row being the first. */
  ghost predicate ImageOfItem(s: Span, id: Id, target: Option<Id>, ns: string, iso: map<Id, Id>) {
    && Eligible(s.t.files, id, ns) && iso.Keys <= Subtree(Live(s.t.files), id)
    && s.next in s.t'.files && IsCopy(s.t.files[id], s.t'.files[s.next], target, ns)
    && Copied(s.t.files[s.next := CopyOf(s.t.files[id], target, ns)], s.next + 1, s.t'.files, id, s.next, ns, iso)
  }

  /** What became of one item of a batch. */
  datatype ItemCopy = ItemCopy(n: Option<Id>, iso: map<Id, Id>)

  /** A copy that was made, from the table before the batch to a later one: the item's own row at
      the target, and rows below it, each to a new row of its own under the image of its parent. */
  ghost predicate ItemImage(m: Files, m': Files, id: Id, target: Option<Id>, ns: string, c: ItemCopy) {
    && c.n.Some? && id in m && id in c.iso && c.iso[id] == c.n.value && c.iso.Keys <= Subtree(Live(m), id)
    && c.n.value !in m && c.n.value in m' && IsCopy(m[id], m'[c.n.value], target, ns)
    && (forall x {:trigger CopyRow(m, m', id, ns, c.iso, x)} | x in c.iso && x != id ::
          CopyRow(m, m', id, ns, c.iso, x))
    && (forall x, y | x in c.iso && y in c.iso && x != y :: c.iso[x] != c.iso[y])
  }

  /** The new rows are the images, and images under different items differ. */
  ghost predicate OnlyImages(m: Files, m': Files, items: seq<ItemCopy>) {
    && (forall y | y in m' && y !in m :: MadeBy(items, y))
    && (forall i, j, x, y | 0 <= i < j < |items| && items[i].n.Some? && items[j].n.Some?
                            && x in items[i].iso && y in items[j].iso ::
          items[i].iso[x] != items[j].iso[y])
  }

  /** Every copy made is an image, every new row belongs to one, and the counts say so. */
  ghost predicate AllImages(m: Files, m': Files, ids: seq<Id>, target: Option<Id>, ns: string, items: seq<ItemCopy>)
    requires |items| == |ids|
  {
    && OnlyImages(m, m', items)
    && (forall i | 0 <= i < |ids| && items[i].n.Some? :: ItemImage(m, m', ids[i], target, ns, items[i]))
    && (forall h :: Count(m', h) == Count(m, h) + BatchNamers(m, items, h))
  }

  ghost predicate MadeBy(items: seq<ItemCopy>, y: Id) {
    exists i :: 0 <= i < |items| && items[i].n.Some? && y in items[i].iso.Values
  }

  /** The rows copied for one item that name a hash. */
  ghost function ItemNamers(m: Files, iso: map<Id, Id>, s: Sha): set<Id> {
    set x | x in iso && x in m && m[x].sha == Some(s)
  }

  /** The number of rows copied for a batch that do. */
  ghost function BatchNamers(m: Files, items: seq<ItemCopy>, s: Sha): nat {
    if items == [] then 0
    else var c := items[|items| - 1];
         BatchNamers(m, items[..|items| - 1], s) + if c.n.Some? then |ItemNamers(m, c.iso, s)| else 0
  }

  /** What a file of the copy adds to the bytes in use. */
  function FileBytes(f: File): nat { if f.isDir then 0 else f.size }

  /** The bytes of the files copied for one item. */
  ghost function ItemBytes(m: Files, iso: map<Id, Id>): nat {
    Total(map x | x in iso && x in m :: FileBytes(m[x]))
  }

  /** The bytes of the files copied for a batch. */
  ghost function BatchBytes(m: Files, items: seq<ItemCopy>): nat {
    if items == [] then 0
    else var c := items[|items| - 1];
         BatchBytes(m, items[..|items| - 1]) + if c.n.Some? then ItemBytes(m, c.iso) else 0
  }

  /** A batch so far: every new row is the copy of an old one, every old row is what it was, and
      if nothing failed everything below every item has been copied once per item and counted. */
  ghost predicate BatchCopied(quiet: bool, s: Span, ids: seq<Id>, target: Option<Id>, ns: string,
                              items: seq<ItemCopy>, copied: nat, lost: multiset<Sha>) {
    && Kept(s, lost) && Known(s.t'.files, s.t'.blobs) && Beside(s.t.files, s.next, target, s.t'.files)
    && |items| == |ids| && AllImages(s.t.files, s.t'.files, ids, target, ns, items)
    && UsedGrows(s.t.files, s.t'.files, ns, BatchBytes(s.t.files, items))
    && (quiet ==> lost == multiset{} && copied == EligibleCount(s.t.files, ids, ns)
                  && forall i | 0 <= i < |ids| :: Complete(s.t.files, ids[i], ns, items[i]))
  }

  /** Copied if it is there, and then with all that is below it. */
  ghost predicate Complete(m: Files, id: Id, ns: string, c: ItemCopy) {
    && (c.n.Some? <==> Eligible(m, id, ns))
    && (c.n.Some? ==> c.iso.Keys == Subtree(Live(m), id))
  }

  /** Each count has risen by the copied rows that name the hash, less the failed increments. */
  lemma BatchCounts(quiet: bool, s: Span, ids: seq<Id>, target: Option<Id>, ns: string, items: seq<ItemCopy>,
                    copied: nat, lost: multiset<Sha>)
    requires BatchCopied(quiet, s, ids, target, ns, items, copied, lost)
    ensures forall h | h in s.t.blobs ::
              h in s.t'.blobs && s.t'.blobs[h].refs + lost[h] == s.t.blobs[h].refs + BatchNamers(s.t.files, items, h)
  {
  }

  lemma NothingCopied(t: Tables, next: Id, id: Id, target: Option<Id>, ns: string)
    requires Sound(t.files, next) && Known(t.files, t.blobs)
    ensures BatchCopied(true, Span(t, next, t, next), [], target, ns, [], 0, multiset{})
    ensures ItemCopied(!Eligible(t.files, id, ns), Span(t, next, t, next), id, target, ns, None, map[], multiset{})
  {
  }

  /** One more item. */
  lemma BatchStep(q1: bool, s1: Span, q2: bool, s2: Span, ids: seq<Id>, id: Id, target: Option<Id>, ns: string,
                  copied: nat, items: seq<ItemCopy>, lost: multiset<Sha>, n: Option<Id>, iso: map<Id, Id>,
                  l: multiset<Sha>)
    requires BatchCopied(q1, s1, ids, target, ns, items, copied, lost) && id < s1.next
    requires Sound(s1.t.files, s1.next) && TargetOk(s1.t.files, target, ns) && NotBelow(s1.t.files, id, target)
    requires s2.t == s1.t' && s2.next == s1.next' && ItemCopied(q2, s2, id, target, ns, n, iso, l)
    ensures BatchCopied(q1 && q2, Span(s1.t, s1.next, s2.t', s2.next'), ids + [id], target, ns,
                        items + [ItemCopy(n, iso)], copied + if n.Some? then 1 else 0, lost + l)
  {
    var m, c := s1.t.files, ItemCopy(n, iso);
    KeptThen(s1, lost, s2, l);
    ItemSeen(m, s1.next, s2, id, target, ns, n, iso);
    NextImage(m, s2, ids, id, target, ns, items, c);
    NextBytes(m, s2, id, target, ns, items, c);
    NextComplete(q1 && q2, m, ids, id, ns, items, c);
  }

  /** What an item is has not changed since the batch began. */
  lemma ItemSeen(m: Files, next: Id, s: Span, id: Id, target: Option<Id>, ns: string, n: Option<Id>, iso: map<Id, Id>)
    requires Sound(m, next) && Beside(m, next, target, s.t.files) && IdsBelow(s.t.files, s.next) && id < next <= s.next
    requires TargetOk(m, target, ns) && NotBelow(m, id, target)
    requires if n.Some? then n == Some(s.next) && ImageOfItem(s, id, target, ns, iso) else s.t'.files == s.t.files
    ensures Eligible(s.t.files, id, ns) <==> Eligible(m, id, ns)
    ensures id in m ==> Subtree(Live(s.t.files), id) == Subtree(Live(m), id)
    ensures Beside(m, next, target, s.t'.files)
  {
    StillNotBelow(m, next, s.t.files, id, target, ns);
    if id in m { BesideElsewhere(m, next, target, s.t.files, id); }
    if n.Some? {
      ItemBeside(s, id, target, ns, iso);
      BesideThen(m, next, target, s.t.files, s.next, s.t'.files);
    }
  }

  lemma NextBytes(m: Files, s: Span, id: Id, target: Option<Id>, ns: string, items: seq<ItemCopy>, c: ItemCopy)
    requires (forall x | x in m :: x in s.t.files && s.t.files[x] == m[x]) && IdsBelow(s.t.files, s.next)
    requires if c.n.Some? then id in m && ImageOfItem(s, id, target, ns, c.iso) && c.iso.Keys <= m.Keys
             else s.t'.files == s.t.files
    requires UsedGrows(m, s.t.files, ns, BatchBytes(m, items))
    ensures UsedGrows(m, s.t'.files, ns, BatchBytes(m, items + [c]))
  {
    assert (items + [c])[..|items|] == items;
    if c.n.Some? { ItemUses(m, s, id, target, ns, c.iso); }
  }

  /** The copy of an item adds the bytes of its files to its namespace, and nothing elsewhere. */
  lemma ItemUses(m: Files, s: Span, id: Id, target: Option<Id>, ns: string, iso: map<Id, Id>)
    requires (forall x | x in m :: x in s.t.files && s.t.files[x] == m[x]) && iso.Keys <= m.Keys
    requires id in m && IdsBelow(s.t.files, s.next) && ImageOfItem(s, id, target, ns, iso)
    ensures UsedGrows(s.t.files, s.t'.files, ns, ItemBytes(m, iso))
  {
    var m1, copy := s.t.files, CopyOf(s.t.files[id], target, ns);
    ItemSizes(m, m1[s.next := copy], id, iso);
    forall n ensures Used(s.t'.files, n) == Used(m1, n) + if n == ns then ItemBytes(m, iso) else 0 {
      UsedInsert(m1, s.next, copy, n);
      CopyUses(m1[s.next := copy], s.next + 1, s.t'.files, id, s.next, ns, iso, n);
    }
  }

  /** The item's own bytes and those below it. */
  lemma ItemSizes(m: Files, mid: Files, id: Id, iso: map<Id, Id>)
    requires iso.Keys <= m.Keys && id in iso && forall x | x in m :: x in mid && mid[x] == m[x]
    ensures ItemBytes(m, iso) == FileBytes(m[id]) + Total(CopySizes(mid, id, iso))
  {
    var sizes: map<Id, nat> := map x | x in iso && x in m :: FileBytes(m[x]);
    TotalRemove(sizes, id);
    assert CopySizes(mid, id, iso) == sizes - {id};
  }

  lemma NextComplete(quiet: bool, m: Files, ids: seq<Id>, id: Id, ns: string, items: seq<ItemCopy>, c: ItemCopy)
    requires |items| == |ids|
    requires (quiet ==> Complete(m, id, ns, c) && forall i | 0 <= i < |ids| :: Complete(m, ids[i], ns, items[i]))
    ensures quiet ==> forall i | 0 <= i < |ids + [id]| :: Complete(m, (ids + [id])[i], ns, (items + [c])[i])
    ensures EligibleCount(m, ids + [id], ns) == EligibleCount(m, ids, ns) + if Eligible(m, id, ns) then 1 else 0
  {
  }

  lemma NextImage(m: Files, s: Span, ids: seq<Id>, id: Id, target: Option<Id>, ns: string, items: seq<ItemCopy>,
                  c: ItemCopy)
    requires (forall x | x in m :: x in s.t.files && s.t.files[x] == m[x]) && IdsBelow(s.t.files, s.next)
    requires WellFormed(s.t'.files)
    requires |items| == |ids| && AllImages(m, s.t.files, ids, target, ns, items)
    requires Extended(s.t.files, s.next, s.t'.files)
    requires if c.n.Some? then c.n == Some(s.next) && id in m && ImageOfItem(s, id, target, ns, c.iso)
                               && Subtree(Live(s.t.files), id) == Subtree(Live(m), id)
             else s.t'.files == s.t.files
    ensures AllImages(m, s.t'.files, ids + [id], target, ns, items + [c])
  {
    if c.n.Some? {
      ItemImaged(m, s, id, target, ns, c.n, c.iso);
      ItemBeside(s, id, target, ns, c.iso);
    }
    ImagesInside(m, s.t.files, ids, target, ns, items);
    ImagesGrow(m, s.t.files, s.t'.files, items, c);
    ImagesStay(m, s.next, s.t.files, s.t'.files, ids, target, ns, items);
    ImagesSnoc(m, s.t'.files, ids, id, target, ns, items, c);
    CountsRise(m, s, id, target, ns, items, c);
  }

  lemma ImagesSnoc(m: Files, m': Files, ids: seq<Id>, id: Id, target: Option<Id>, ns: string, items: seq<ItemCopy>,
                   c: ItemCopy)
    requires |items| == |ids| && (c.n.Some? ==> ItemImage(m, m', id, target, ns, c))
    requires forall i | 0 <= i < |ids| && items[i].n.Some? :: ItemImage(m, m', ids[i], target, ns, items[i])
    ensures forall i | 0 <= i < |ids + [id]| && (items + [c])[i].n.Some? ::
              ItemImage(m, m', (ids + [id])[i], target, ns, (items + [c])[i])
  {
  }

  lemma ImagesInside(m: Files, m': Files, ids: seq<Id>, target: Option<Id>, ns: string, items: seq<ItemCopy>)
    requires |items| == |ids| && AllImages(m, m', ids, target, ns, items)
    ensures forall i, x | 0 <= i < |items| && items[i].n.Some? && x in items[i].iso :: items[i].iso[x] in m'
  {
    forall i, x | 0 <= i < |items| && items[i].n.Some? && x in items[i].iso ensures items[i].iso[x] in m' {
      assert ItemImage(m, m', ids[i], target, ns, items[i]);
      assert x != ids[i] ==> CopyRow(m, m', ids[i], ns, items[i].iso, x);
    }
  }

  lemma ImagesStay(m: Files, next: Id, m1: Files, m2: Files, ids: seq<Id>, target: Option<Id>, ns: string,
                   items: seq<ItemCopy>)
    requires |items| == |ids| && Extended(m1, next, m2)
    requires forall i | 0 <= i < |ids| && items[i].n.Some? :: ItemImage(m, m1, ids[i], target, ns, items[i])
    ensures forall i | 0 <= i < |ids| && items[i].n.Some? :: ItemImage(m, m2, ids[i], target, ns, items[i])
  {
    forall i | 0 <= i < |ids| && items[i].n.Some? ensures ItemImage(m, m2, ids[i], target, ns, items[i]) {
      ImageStays(m, next, m1, m2, ids[i], target, ns, items[i]);
    }
  }

  lemma CountsRise(m: Files, s: Span, id: Id, target: Option<Id>, ns: string, items: seq<ItemCopy>, c: ItemCopy)
    requires forall h :: Count(s.t.files, h) == Count(m, h) + BatchNamers(m, items, h)
    requires (forall x | x in m :: x in s.t.files && s.t.files[x] == m[x]) && WellFormed(s.t'.files)
    requires IdsBelow(s.t.files, s.next)
    requires if c.n.Some? then ImageOfItem(s, id, target, ns, c.iso) && c.iso.Keys <= m.Keys
             else s.t'.files == s.t.files
    ensures forall h :: Count(s.t'.files, h) == Count(m, h) + BatchNamers(m, items + [c], h)
  {
    assert (items + [c])[..|items|] == items;
    forall h ensures Count(s.t'.files, h) == Count(m, h) + BatchNamers(m, items + [c], h) {
      if c.n.Some? { ItemRaises(m, s, id, target, ns, c.iso, h); }
    }
  }

  lemma ImagesGrow(m: Files, m1: Files, m2: Files, items: seq<ItemCopy>, c: ItemCopy)
    requires OnlyImages(m, m1, items) && (c.n.None? ==> m2 == m1)
    requires forall i, x | 0 <= i < |items| && items[i].n.Some? && x in items[i].iso :: items[i].iso[x] in m1
    requires c.n.Some? ==> forall x | x in c.iso :: c.iso[x] !in m1
    requires forall y | y in m2 && y !in m1 :: y in c.iso.Values
    ensures OnlyImages(m, m2, items + [c])
  {
    var longer := items + [c];
    forall y | y in m2 && y !in m ensures MadeBy(longer, y) {
      if y in m1 {
        var i :| 0 <= i < |items| && items[i].n.Some? && y in items[i].iso.Values;
        assert longer[i] == items[i];
      } else {
        assert longer[|items|] == c;
      }
    }
  }

  lemma ImageStays(m: Files, next: Id, m1: Files, m2: Files, id: Id, target: Option<Id>, ns: string, c: ItemCopy)
    requires ItemImage(m, m1, id, target, ns, c) && Extended(m1, next, m2)
    ensures ItemImage(m, m2, id, target, ns, c)
  {
    forall x | x in c.iso && x != id
      ensures CopyRow(m, m2, id, ns, c.iso, x)
    {
      assert CopyRow(m, m1, id, ns, c.iso, x);
    }
  }

  /** The copy of one item, told from the table before the batch. */
  lemma ItemImaged(m: Files, s: Span, id: Id, target: Option<Id>, ns: string, n: Option<Id>, iso: map<Id, Id>)
    requires (forall x | x in m :: x in s.t.files && s.t.files[x] == m[x]) && IdsBelow(s.t.files, s.next) && id in m
    requires Subtree(Live(s.t.files), id) == Subtree(Live(m), id)
    requires n == Some(s.next) && ImageOfItem(s, id, target, ns, iso)
    ensures ItemImage(m, s.t'.files, id, target, ns, ItemCopy(n, iso))
    ensures forall x | x in iso :: iso[x] !in s.t.files
  {
    var m1, m2 := s.t.files, s.t'.files;
    var mid := m1[s.next := CopyOf(m1[id], target, ns)];
    assert s.next in mid && id in iso && iso[id] == s.next;
    forall x | x in iso && x != id ensures iso[x] !in mid && CopyRow(m, m2, id, ns, iso, x) {
      assert CopyRow(mid, m2, id, ns, iso, x);
      assert x in Subtree(Live(m), id);
    }
  }

  lemma ItemBeside(s: Span, id: Id, target: Option<Id>, ns: string, iso: map<Id, Id>)
    requires IdsBelow(s.t.files, s.next) && ImageOfItem(s, id, target, ns, iso)
    ensures Beside(s.t.files, s.next, target, s.t'.files)
    ensures forall y | y in s.t'.files && y !in s.t.files :: y in iso.Values
  {
    var m1, m2 := s.t.files, s.t'.files;
    var mid := m1[s.next := CopyOf(m1[id], target, ns)];
    CopiedGrown(mid, s.next + 1, m2, id, s.next, ns, iso);
    assert iso[id] == s.next;
    forall y | y in m2 && y !in m1 ensures y in iso.Values {
      if y !in mid {
        assert ImageOf(iso, id, y);
      }
    }
  }

  /** It raises the number of rows naming a hash by the copied rows that do. */
  lemma ItemRaises(m: Files, s: Span, id: Id, target: Option<Id>, ns: string, iso: map<Id, Id>, h: Sha)
    requires (forall x | x in m :: x in s.t.files && s.t.files[x] == m[x]) && iso.Keys <= m.Keys
    requires WellFormed(s.t'.files) && IdsBelow(s.t.files, s.next) && ImageOfItem(s, id, target, ns, iso)
    ensures Count(s.t'.files, h) == Count(s.t.files, h) + |ItemNamers(m, iso, h)|
  {
    var m1, copy := s.t.files, CopyOf(s.t.files[id], target, ns);
    var mid := m1[s.next := copy];
    WellFormedCut(s.t'.files, mid);
    CountInsert(m1, s.next, copy, h);
    CopyRaisesCounts(mid, s.next + 1, s.t'.files, id, s.next, ns, iso, h);
    NamersOfItem(m, mid, iso, id, h);
  }

  /** The item's own row and the rows below it. */
  lemma NamersOfItem(m: Files, mid: Files, iso: map<Id, Id>, id: Id, h: Sha)
    requires iso.Keys <= m.Keys && id in iso && forall x | x in m :: x in mid && mid[x] == m[x]
    ensures |ItemNamers(m, iso, h)| == |CopiedNamers(mid, id, iso, h)| + if m[id].sha == Some(h) then 1 else 0
  {
    var below := CopiedNamers(mid, id, iso, h);
    assert ItemNamers(m, iso, h) == below + if m[id].sha == Some(h) then {id} else {};
    assert id !in below;
  }

  lemma ItemInserted(m: Files, next: Id, id: Id, target: Option<Id>, ns: string)
    requires Sound(m, next) && id in Live(m) && TargetOk(m, target, ns) && NotBelow(m, id, target)
    ensures var mid := m[next := CopyOf(m[id], target, ns)];
            && Copied(mid, next + 1, mid, id, next, ns, map[id := next])
            && Subtree(Live(mid), id) == Subtree(Live(m), id) && id in Subtree(Live(m), id)
            && id in Live(mid) && next in Live(mid) && !Under(Live(mid), id, next)
            && (!m[id].isDir ==> Subtree(Live(m), id) == {id})
  {
    var copy := CopyOf(m[id], target, ns);
    var mid := m[next := copy];
    CopiedNothing(mid, next + 1, id, next, ns);
    assert Live(mid) == Live(m)[next := copy];
    forall y ensures y in Subtree(Live(mid), id) <==> y in Subtree(Live(m), id) {
      UnderAddLeaf(Live(m), next, copy, id, y);
    }
    UnderAddLeaf(Live(m), next, copy, id, next);
    UnderStep(Live(m), id, id);
    if !m[id].isDir { FileSubtree(m, Live(m), id); }
  }

  lemma ItemRow(q: bool, t: Tables, next: Id, t1: Tables, row: Row, target: Option<Id>, ns: string, n: Option<Id>,
                lost: multiset<Sha>)
    requires Sound(t.files, next) && TargetOk(t.files, target, ns) && NotBelow(t.files, row.id, target)
    requires Eligible(t.files, row.id, ns) && t.files[row.id] == row.file
    requires Recorded(q, t, next, t1, row.file, target, ns, n, lost)
    ensures ItemCopied(q && (n.None? || !row.file.isDir), Span(t, next, t1, next + 1), row.id, target, ns, n,
                       map[row.id := next], lost)
    ensures n.Some? && row.file.isDir ==> Ready(t1, next + 1, row.id, next, ns)
  {
    ItemInserted(t.files, next, row.id, target, ns);
  }

  lemma ItemTree(q1: bool, t: Tables, next: Id, q2: bool, s: Span, q: bool, row: Row, target: Option<Id>, ns: string,
                 lost: multiset<Sha>, iso: map<Id, Id>, l: multiset<Sha>, depth: nat)
    requires Sound(t.files, next) && TargetOk(t.files, target, ns) && NotBelow(t.files, row.id, target)
    requires Eligible(t.files, row.id, ns) && t.files[row.id] == row.file
    requires Recorded(q1, t, next, s.t, row.file, target, ns, Some(next), lost) && s.next == next + 1
    requires DirCopied(q2, s, row.id, next, ns, iso, l, depth) && (q ==> q1 && q2)
    ensures ItemCopied(q, Span(t, next, s.t', s.next'), row.id, target, ns, Some(next), iso, lost + l)
  {
    TreeImage(t, next, s, row, target, ns, iso);
    TreeExtends(t.files, next, CopyOf(row.file, target, ns), s.t'.files, row.id, ns, iso);
    ItemInserted(t.files, next, row.id, target, ns);
    CopiedKnown(s.t.files, next + 1, s.t'.files, row.id, next, ns, iso, s.t'.blobs);
    KeptThen(Span(t, next, s.t, next + 1), lost, s, l);
  }

  lemma TreeImage(t: Tables, next: Id, s: Span, row: Row, target: Option<Id>, ns: string, iso: map<Id, Id>)
    requires Sound(t.files, next) && TargetOk(t.files, target, ns) && NotBelow(t.files, row.id, target)
    requires Eligible(t.files, row.id, ns) && t.files[row.id] == row.file
    requires s.t.files == t.files[next := CopyOf(row.file, target, ns)] && next !in t.files
    requires Copied(s.t.files, next + 1, s.t'.files, row.id, next, ns, iso)
    ensures ImageOfItem(Span(t, next, s.t', s.next'), row.id, target, ns, iso)
  {
    ItemInserted(t.files, next, row.id, target, ns);
    CopiedKeys(s.t.files, next + 1, s.t'.files, row.id, next, ns, iso);
  }

  lemma TreeExtends(m: Files, next: Id, f: File, m': Files, src: Id, ns: string, iso: map<Id, Id>)
    requires next !in m && Copied(m[next := f], next + 1, m', src, next, ns, iso)
    ensures Extended(m, next, m')
  {
  }

  lemma StillNotBelow(m: Files, next: Id, m1: Files, id: Id, target: Option<Id>, ns: string)
    requires Extended(m, next, m1) && IdsBelow(m, next) && TargetOk(m, target, ns) && NotBelow(m, id, target)
    requires id < next
    ensures TargetOk(m1, target, ns) && NotBelow(m1, id, target) && (Eligible(m1, id, ns) <==> Eligible(m, id, ns))
  {
    if target.Some? {
      if id in m {
        ExtendedUnder(m, next, m1, id, target.value);
      } else if Under(Live(m1), id, target.value) {
        UnderIn(Live(m1), id, target.value);
      }
    }
  }

  /** The sizes of the files below the source that were copied. */
  ghost function CopySizes(m: Files, src: Id, iso: map<Id, Id>): map<Id, nat> {
    map x | x in iso && x != src && x in m :: FileBytes(m[x])
  }

  /** A copy uses the bytes of the files copied. */
  lemma CopyUses(m: Files, next: Id, m': Files, src: Id, dst: Id, ns: string, iso: map<Id, Id>, n: string)
    requires Copied(m, next, m', src, dst, ns, iso)
    ensures Used(m', n) == Used(m, n) + if n == ns then Total(CopySizes(m, src, iso)) else 0
  {
    var added := AddedSizes(m, m', n);
    TotalApart(Sizes(m, n), added);
    assert Sizes(m', n) == Sizes(m, n) + added;
    if n == ns {
      CopySizesRenamed(m, next, m', src, dst, ns, iso);
    } else {
      forall y | y in m' && y !in m ensures m'[y].ns == ns {
        var x := AddedRow(m, next, m', src, dst, ns, iso, y);
      }
      assert added == map[];
    }
  }

  ghost function AddedSizes(m: Files, m': Files, ns: string): map<Id, nat> {
    map y | y in m' && y !in m && Active(m'[y]) && m'[y].ns == ns :: m'[y].size
  }

  /** An added row is a copy. */
  lemma AddedRow(m: Files, next: Id, m': Files, src: Id, dst: Id, ns: string, iso: map<Id, Id>, y: Id) returns (x: Id)
    requires Copied(m, next, m', src, dst, ns, iso) && y in m' && y !in m
    ensures x in iso && x != src && x in m && iso[x] == y
    ensures Active(m'[y]) && m'[y].ns == ns && m'[y].size == FileBytes(m[x])
  {
    x :| x in iso && x != src && iso[x] == y;
    assert CopyRow(m, m', src, ns, iso, x);
  }

  lemma CopySizesRenamed(m: Files, next: Id, m': Files, src: Id, dst: Id, ns: string, iso: map<Id, Id>)
    requires Copied(m, next, m', src, dst, ns, iso)
    ensures Total(CopySizes(m, src, iso)) == Total(AddedSizes(m, m', ns))
  {
    var sizes, added := CopySizes(m, src, iso), AddedSizes(m, m', ns);
    forall x | x in sizes
      ensures iso[x] in added && added[iso[x]] == sizes[x]
    {
      assert CopyRow(m, m', src, ns, iso, x);
    }
    forall y | y in added ensures exists x :: x in sizes && iso[x] == y {
      var x := AddedRow(m, next, m', src, dst, ns, iso, y);
      assert x in sizes;
    }
    TotalRenamed(sizes, added, iso);
  }

  /** The rows of a copy, by the hash they name. */
  ghost function CopiedNamers(m: Files, src: Id, iso: map<Id, Id>, s: Sha): set<Id> {
    set x | x in iso && x != src && x in m && m[x].sha == Some(s)
  }

  ghost function Images(iso: map<Id, Id>, xs: set<Id>): set<Id> {
    set x | x in xs && x in iso :: iso[x]
  }

  /** A copy raises the number of rows naming a hash by the number of copied rows that do. */
  lemma CopyRaisesCounts(m: Files, next: Id, m': Files, src: Id, dst: Id, ns: string, iso: map<Id, Id>, s: Sha)
    requires Copied(m, next, m', src, dst, ns, iso) && WellFormed(m)
    ensures Count(m', s) == Count(m, s) + |CopiedNamers(m, src, iso, s)|
  {
    var copied := CopiedNamers(m, src, iso, s);
    ImageSize(iso, copied);
    forall n ensures n in Namers(m', s) <==> n in Namers(m, s) || n in Images(iso, copied) {
      NamerOrImage(m, next, m', src, dst, ns, iso, s, n);
    }
    assert Namers(m', s) == Namers(m, s) + Images(iso, copied);
    forall x | x in copied ensures iso[x] !in m { assert CopyRow(m, m', src, ns, iso, x); }
  }

  lemma NamerOrImage(m: Files, next: Id, m': Files, src: Id, dst: Id, ns: string, iso: map<Id, Id>, s: Sha, n: Id)
    requires Copied(m, next, m', src, dst, ns, iso) && WellFormed(m)
    ensures n in Namers(m', s) <==> n in Namers(m, s) || n in Images(iso, CopiedNamers(m, src, iso, s))
  {
    if n in m' && n !in m {
      var x :| x in iso && x != src && iso[x] == n;
      assert CopyRow(m, m', src, ns, iso, x);
    }
    if x :| x in CopiedNamers(m, src, iso, s) && iso[x] == n {
      assert CopyRow(m, m', src, ns, iso, x);
    }
  }

  lemma {:induction false} ImageSize(iso: map<Id, Id>, xs: set<Id>)
    requires xs <= iso.Keys && forall x, y | x in xs && y in xs && x != y :: iso[x] != iso[y]
    ensures |Images(iso, xs)| == |xs|
    decreases xs
  {
    if xs == {} {
      assert Images(iso, xs) == {};
    } else {
      var x :| x in xs;
      ImageSize(iso, xs - {x});
      assert Images(iso, xs) == Images(iso, xs - {x}) + {iso[x]};
    }
  }

  // ---------- which copies end ----------

  /** The children of a row in some order. */
  lemma SomeChildList(m: Files, d: Id) returns (kids: seq<Row>)
    ensures ChildList(m, d, kids)
  {
    var ids := set x | x in m && m[x].parent == Some(d);
    kids := SomeList(m, ids);
    assert forall x | x in m && m[x].parent == Some(d) :: x in ids;
  }

  lemma {:induction false} SomeList(m: Files, ids: set<Id>) returns (rows: seq<Row>)
    requires ids <= m.Keys
    ensures forall i | 0 <= i < |rows| :: rows[i].id in ids && m[rows[i].id] == rows[i].file
    ensures forall i, j | 0 <= i < j < |rows| :: rows[i].id != rows[j].id
    ensures forall x | x in ids :: exists i :: 0 <= i < |rows| && rows[i].id == x
    decreases ids
  {
    rows := [];
    if ids != {} {
      var x :| x in ids;
      var rest := SomeList(m, ids - {x});
      rows := rest + [Row(x, m[x])];
      assert rows[|rest|].id == x;
      forall y | y in ids ensures exists i :: 0 <= i < |rows| && rows[i].id == y {
        if y != x {
          assert y in ids - {x};
          var i :| 0 <= i < |rest| && rest[i].id == y;
          assert rows[i].id == y;
        }
      }
    }
  }

  /** Without failures, copying to a place outside the source ends: a run of the walk. */
  lemma {:induction false} WalkRuns(t: Tables, next: Id, src: Id, dst: Id, ns: string, depth: nat)
    returns (s: Span, iso: map<Id, Id>)
    requires Ready(t, next, src, dst, ns) && |Subtree(Live(t.files), src)| <= depth
    ensures s.t == t && s.next == next && DirCopied(true, s, src, dst, ns, iso, multiset{}, depth)
    decreases |Subtree(Live(t.files), src)|, 2, 0
  {
    var kids := SomeChildList(Live(t.files), src);
    s, iso := LoopRuns(t, next, src, dst, ns, kids, |kids|, depth);
    LoopEnd(true, s, src, dst, ns, kids, |kids|, iso, multiset{}, depth);
  }

  lemma {:induction false} LoopRuns(t: Tables, next: Id, src: Id, dst: Id, ns: string, kids: seq<Row>, k: nat,
                                    depth: nat)
    returns (s: Span, iso: map<Id, Id>)
    requires Ready(t, next, src, dst, ns) && |Subtree(Live(t.files), src)| <= depth
    requires ChildList(Live(t.files), src, kids) && k <= |kids|
    ensures s.t == t && s.next == next && LoopCopied(true, s, src, dst, ns, kids, k, iso, multiset{}, depth)
    decreases |Subtree(Live(t.files), src)|, 1, k
  {
    if k == 0 {
      LoopStart(t, next, src, dst, ns, kids, depth);
      s, iso := Span(t, next, t, next), map[src := dst];
    } else {
      s, iso := LoopRuns(t, next, src, dst, ns, kids, k - 1, depth);
      s, iso := NthRuns(s, src, dst, ns, kids, k - 1, iso, depth);
    }
  }

  lemma {:induction false} NthRuns(s1: Span, src: Id, dst: Id, ns: string, kids: seq<Row>, k: nat, iso1: map<Id, Id>,
                                   depth: nat)
    returns (s: Span, iso: map<Id, Id>)
    requires Ready(s1.t, s1.next, src, dst, ns) && |Subtree(Live(s1.t.files), src)| <= depth
    requires ChildList(Live(s1.t.files), src, kids) && k < |kids|
    requires LoopCopied(true, s1, src, dst, ns, kids, k, iso1, multiset{}, depth)
    ensures s.t == s1.t && s.next == s1.next && LoopCopied(true, s, src, dst, ns, kids, k + 1, iso, multiset{}, depth)
    decreases |Subtree(Live(s1.t.files), src)|, 0, 0
  {
    LoopReady(true, s1, src, dst, ns, kids, k, iso1, multiset{}, depth);
    var s2, sub := ChildRuns(s1.t', s1.next', kids[k], dst, ns, depth);
    LoopStep(true, s1, true, s2, true, src, dst, ns, kids, k, iso1, multiset{}, Some(s1.next'), sub, multiset{}, depth);
    s, iso := Span(s1.t, s1.next, s2.t', s2.next'), iso1 + sub;
  }

  lemma {:induction false} ChildRuns(t: Tables, next: Id, child: Row, dst: Id, ns: string, depth: nat)
    returns (s: Span, sub: map<Id, Id>)
    requires Ready(t, next, child.id, dst, ns) && t.files[child.id] == child.file
    requires |Subtree(Live(t.files), child.id)| < depth
    ensures s.t == t && s.next == next && ChildCopied(true, s, child, dst, ns, Some(next), sub, multiset{}, depth)
    decreases |Subtree(Live(t.files), child.id)|, 4, 0
  {
    var t1 := RowRuns(t, next, child.file, Some(dst), ns);
    ChildRow(true, t, next, t1, child, dst, ns, Some(next), multiset{}, depth);
    if child.file.isDir {
      s, sub := TreeRuns(t, next, t1, child, dst, ns, depth);
    } else {
      s, sub := Span(t, next, t1, next + 1), map[child.id := next];
    }
  }

  /** The row of a copy, inserted and counted. */
  lemma RowRuns(t: Tables, next: Id, row: File, parent: Option<Id>, ns: string) returns (t1: Tables)
    requires Sound(t.files, next) && Known(t.files, t.blobs) && (row.sha.Some? ==> row.sha.value in t.blobs)
    requires parent.Some? ==>
               parent.value in Live(t.files) && t.files[parent.value].isDir && t.files[parent.value].ns == ns
    ensures Recorded(true, t, next, t1, row, parent, ns, Some(next), multiset{})
  {
    var copy := CopyOf(row, parent, ns);
    RecordStep(t, next, row, parent, ns);
    t1 := Tables(t.files[next := copy], if copy.sha.Some? then Incr(t.blobs, copy.sha.value) else t.blobs);
  }

  lemma {:induction false} TreeRuns(t: Tables, next: Id, t1: Tables, child: Row, dst: Id, ns: string, depth: nat)
    returns (s: Span, sub: map<Id, Id>)
    requires child.file.isDir && SameBelow(t.files, t1.files, child.id) && |Subtree(Live(t.files), child.id)| < depth
    requires Recorded(true, t, next, t1, child.file, Some(dst), ns, Some(next), multiset{})
    requires Ready(t1, next + 1, child.id, next, ns)
    ensures s.t == t && s.next == next && ChildCopied(true, s, child, dst, ns, Some(next), sub, multiset{}, depth)
    decreases |Subtree(Live(t.files), child.id)|, 3, 0
  {
    s, sub := WalkRuns(t1, next + 1, child.id, next, ns, depth - 1);
    ChildTree(true, t, next, true, s, true, child, dst, ns, multiset{}, sub, multiset{}, depth);
    s := Span(t, next, s.t', s.next');
  }

  /** After the item's own row has been copied to the target, a finished walk below it. */
  ghost predicate ItemRun(m: Files, next: Id, id: Id, target: Option<Id>, ns: string, m': Files, next': Id, depth: nat)
    requires id in m
  {
    CopyRun(m[next := CopyOf(m[id], target, ns)], next + 1, id, next, ns, m', next', depth)
  }

  /** The tables once the item's own row has been copied. */
  lemma ItemReady(t: Tables, next: Id, id: Id, target: Option<Id>, ns: string) returns (t1: Tables)
    requires Sound(t.files, next) && Known(t.files, t.blobs) && TargetOk(t.files, target, ns)
    requires Eligible(t.files, id, ns) && t.files[id].isDir && NotBelow(t.files, id, target)
    ensures t1.files == t.files[next := CopyOf(t.files[id], target, ns)] && Ready(t1, next + 1, id, next, ns)
  {
    t1 := RowRuns(t, next, t.files[id], target, ns);
    ItemRow(true, t, next, t1, Row(id, t.files[id]), target, ns, Some(next), multiset{});
  }

  lemma ItemRuns(t: Tables, next: Id, id: Id, target: Option<Id>, ns: string) returns (m': Files, next': Id, depth: nat)
    requires Sound(t.files, next) && Known(t.files, t.blobs) && TargetOk(t.files, target, ns)
    requires Eligible(t.files, id, ns) && t.files[id].isDir && NotBelow(t.files, id, target)
    ensures ItemRun(t.files, next, id, target, ns, m', next', depth)
  {
    var t1 := ItemReady(t, next, id, target, ns);
    depth := |Subtree(Live(t1.files), id)|;
    var s, iso := WalkRuns(t1, next + 1, id, next, ns, depth);
    m', next' := s.t'.files, s.next';
  }

  /** A directory can be copied exactly to the top and to directories that are not in it: else
      there is no run that ends, whatever the depth and whatever order the children come in. */
  lemma ItemEndsIff(t: Tables, next: Id, id: Id, target: Option<Id>, ns: string)
    requires Sound(t.files, next) && Known(t.files, t.blobs) && TargetOk(t.files, target, ns)
    requires Eligible(t.files, id, ns) && t.files[id].isDir
    ensures (exists m', next', depth: nat :: ItemRun(t.files, next, id, target, ns, m', next', depth))
            <==> NotBelow(t.files, id, target)
  {
    var m := t.files;
    if NotBelow(m, id, target) {
      var m', next', depth := ItemRuns(t, next, id, target, ns);
      assert ItemRun(m, next, id, target, ns, m', next', depth);
    } else {
      forall m', next', depth: nat ensures !ItemRun(m, next, id, target, ns, m', next', depth) {
        CopyIntoItselfDiverges(m, next, id, target.value, ns, m', next', depth);
      }
    }
  }

  /** A batch that is asked to copy a directory into itself never finishes. */
  lemma CopyIntoItselfDiverges(m: Files, next: Id, id: Id, target: Id, ns: string, m': Files, next': Id, depth: nat)
    requires Sound(m, next) && id in Live(m) && m[id].isDir && TargetOk(m, Some(target), ns)
    requires Under(Live(m), id, target)
    ensures !ItemRun(m, next, id, Some(target), ns, m', next', depth)
  {
    var copy := CopyOf(m[id], Some(target), ns);
    var mid := m[next := copy];
    var k: nat :| Up(Live(m), target, k) == Some(id);
    forall j: nat | j <= k + 1
      ensures DirAt(mid, next, j) && (j > 0 ==> Up(Live(mid), next, j) == Up(Live(m), target, j - 1))
    {
      if j > 0 { LeafChain(m, next, copy, target, j - 1, k, id); }
    }
    CopyBelowItselfDiverges(mid, next + 1, id, next, ns, m', next', depth, k + 1);
  }

  /** The rows above a directory are active directories, also once a row is put below it. */
  lemma LeafChain(m: Files, next: Id, copy: File, x: Id, j: nat, k: nat, r: Id)
    requires Sound(m, next) && x in Live(m) && m[x].isDir && Up(Live(m), x, k) == Some(r) && j <= k
    requires Active(copy) && copy.parent == Some(x)
    ensures var mid := m[next := copy];
            && Up(Live(mid), x, j) == Up(Live(m), x, j) && Up(Live(mid), next, j + 1) == Up(Live(m), x, j)
            && DirAt(mid, next, j + 1)
  {
    var mid := m[next := copy];
    OldChain(m, next, mid, x, j);
    ChainOfDirs(m, x, j, k, r);
  }

  lemma {:induction false} ChainOfDirs(m: Files, x: Id, j: nat, k: nat, r: Id)
    requires WellFormed(m) && x in Live(m) && m[x].isDir && Up(Live(m), x, k) == Some(r) && j <= k
    ensures Up(Live(m), x, j).Some? && Up(Live(m), x, j).value in Live(m) && m[Up(Live(m), x, j).value].isDir
    decreases j
  {
    if j > 0 {
      var p := m[x].parent.value;
      UpTop(Live(m), p, k - 1, r);
      assert Edge(m, x, p);
      ChainOfDirs(m, p, j - 1, k - 1, r);
    }
  }
}
